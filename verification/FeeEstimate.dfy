/** The fee estimator's undo log: registering a block moves observed transactions into
    bins, dropping random older ones when a bin is full; rolling back undoes it.  The
    random drops and the random transaction order are arbitrary choices here, so the
    results hold for all of them. */
module FeeEstimate {
  import opened Types

  const DEPTH: nat := 25                  // estimateFeeDepth
  const UNMINED: int := 0x7fff_ffff       // mining.UnminedHeight

  // The record behind the pointer that the observed map, the bins and the undo log share;
  // a hash stands for the pointer.
  datatype ObservedTx = ObservedTx(observed: int, mined: int)

  type TxMap = map<Hash, ObservedTx>

  datatype RegisteredBlock = RegisteredBlock(hash: Hash, txs: seq<Hash>)

  datatype Est = Est(observed: TxMap, bins: seq<seq<Hash>>, height: int, numBlocks: int)

  function BinOf(o: ObservedTx): int {
    o.mined - o.observed - 1
  }

  predicate Marked(obs: TxMap, height: int, h: Hash) {
    h in obs && obs[h].mined == height
  }

  // The part of a bin that was not mined at the given height.
  function Unmarked(obs: TxMap, height: int, s: seq<Hash>): seq<Hash> {
    if s == [] then []
    else
      var rest := Unmarked(obs, height, s[1..]);
      if Marked(obs, height, s[0]) then rest else [s[0]] + rest
  }

  function CountMarked(obs: TxMap, height: int, s: seq<Hash>): nat {
    if s == [] then 0 else (if Marked(obs, height, s[0]) then 1 else 0) + CountMarked(obs, height, s[1..])
  }

  // The transactions of an undo record that came from bin k.
  function FromBin(obs: TxMap, txs: seq<Hash>, k: int): seq<Hash> {
    if txs == [] then []
    else
      var rest := FromBin(obs, txs[1..], k);
      if txs[0] in obs && BinOf(obs[txs[0]]) == k then [txs[0]] + rest else rest
  }

  // Everything in bin k was mined k + 1 blocks after it was observed.
  ghost predicate BinOk(obs: TxMap, bin: seq<Hash>, k: int) {
    NoDup(bin) && forall i :: 0 <= i < |bin| ==>
      bin[i] in obs && obs[bin[i]].mined != UNMINED && BinOf(obs[bin[i]]) == k
  }

  ghost predicate BinsOk(obs: TxMap, bins: seq<seq<Hash>>) {
    |bins| == DEPTH && forall k :: 0 <= k < DEPTH ==> BinOk(obs, bins[k], k)
  }

  /** What an estimator keeps at all times */
  ghost predicate StateOk(s: Est, binSize: nat) {
    && BinsOk(s.observed, s.bins)
    && s.height <= UNMINED
    && (s.height == UNMINED ==> s.observed == map[])
    && (forall k :: 0 <= k < DEPTH ==> |s.bins[k]| <= binSize)
    && (forall h :: h in s.observed && s.observed[h].mined != UNMINED ==> s.observed[h].mined <= s.height)
  }

  /** State a is what some registration made of state b, as far as undoing it goes */

  // Bin k of b is what this block left of it together with what it dropped, and every
  // dropped transaction made room for one of this block.
  ghost predicate BinUndoable(b: Est, a: Est, txs: seq<Hash>, k: int)
    requires |a.bins| == DEPTH && |b.bins| == DEPTH && 0 <= k < DEPTH
  {
    && multiset(Unmarked(a.observed, a.height, a.bins[k])) + multiset(FromBin(a.observed, txs, k))
      == multiset(b.bins[k])
    && |FromBin(a.observed, txs, k)| <= CountMarked(a.observed, a.height, a.bins[k])
  }

  function Unmark(height: int, o: ObservedTx): ObservedTx {
    if o.mined == height then o.(mined := UNMINED) else o
  }

  // What state obs knew of h may be lost: nothing, or an unmined record swept for its age
  // by a block no higher than top.
  predicate MayBeLost(obs: TxMap, h: Hash, top: int) {
    h in obs ==> obs[h].mined == UNMINED && top - obs[h].observed >= DEPTH
  }

  // What a later map holds under h against what the earlier one held: the same record
  // with the marks of this height undone, a record observed since, or none.
  predicate Traces(old': TxMap, new': TxMap, height: int, h: Hash, top: int) {
    if h in new' then
      || (h in old' && old'[h] == Unmark(height, new'[h]))
      || (new'[h].mined == UNMINED && MayBeLost(old', h, top))
    else MayBeLost(old', h, top)
  }

  ghost predicate MarksUndoable(b: Est, a: Est, top: int) {
    && (forall h :: Traces(b.observed, a.observed, a.height, h, top))
    && (forall h :: Marked(a.observed, a.height, h) ==>
          0 <= BinOf(a.observed[h]) < |a.bins| && h in a.bins[BinOf(a.observed[h])])
  }

  // A dropped transaction was mined by an earlier block.
  predicate Droppable(obs: TxMap, height: int, h: Hash) {
    && h in obs && !Marked(obs, height, h)
    && obs[h].mined != UNMINED && 0 <= BinOf(obs[h]) < DEPTH
  }

  ghost predicate Undoable(b: Est, a: Est, txs: seq<Hash>, top: int) {
    && BinsOk(a.observed, a.bins) && |b.bins| == DEPTH
    && a.height == b.height + 1 && a.numBlocks == b.numBlocks + 1 && a.height < UNMINED
    && MarksUndoable(b, a, top)
    && (forall i :: 0 <= i < |txs| ==> Droppable(a.observed, a.height, txs[i]))
    && (forall k :: 0 <= k < DEPTH ==> BinUndoable(b, a, txs, k))
  }

  // (Undoing the marks of height UNMINED changes no record.)
  // r is b again: every bin as a multiset, every mark, the height and the block count.
  // Only unmined transactions swept for their age may be gone, and only unmined ones
  // observed since may be new.
  ghost predicate Restored(b: Est, r: Est, top: int) {
    && |r.bins| == |b.bins| == DEPTH
    && (forall k :: 0 <= k < DEPTH ==> multiset(r.bins[k]) == multiset(b.bins[k]))
    && (forall h :: Traces(b.observed, r.observed, UNMINED, h, top))
    && r.height == b.height && r.numBlocks == b.numBlocks
  }

  /** Small facts about the filters */

  lemma {:induction false} UnmarkedSplit(obs: TxMap, height: int, s: seq<Hash>, t: seq<Hash>)
    ensures Unmarked(obs, height, s + t) == Unmarked(obs, height, s) + Unmarked(obs, height, t)
    ensures CountMarked(obs, height, s + t) == CountMarked(obs, height, s) + CountMarked(obs, height, t)
  {
    if s == [] {
      assert s + t == t;
    } else {
      assert (s + t)[1..] == s[1..] + t;
      UnmarkedSplit(obs, height, s[1..], t);
    }
  }

  lemma {:induction false} UnmarkedSame(obs: TxMap, obs': TxMap, height: int, s: seq<Hash>)
    requires forall i :: 0 <= i < |s| ==> (Marked(obs, height, s[i]) <==> Marked(obs', height, s[i]))
    ensures Unmarked(obs, height, s) == Unmarked(obs', height, s)
    ensures CountMarked(obs, height, s) == CountMarked(obs', height, s)
  {
    if s != [] {
      assert Marked(obs, height, s[0]) <==> Marked(obs', height, s[0]);
      UnmarkedSame(obs, obs', height, s[1..]);
    }
  }

  lemma {:induction false} NoneMarked(obs: TxMap, height: int, s: seq<Hash>)
    requires forall i :: 0 <= i < |s| ==> !Marked(obs, height, s[i])
    ensures Unmarked(obs, height, s) == s && CountMarked(obs, height, s) == 0
  {
    if s != [] {
      NoneMarked(obs, height, s[1..]);
    }
  }

  lemma {:induction false} FromBinSame(obs: TxMap, obs': TxMap, txs: seq<Hash>, k: int)
    requires forall i :: 0 <= i < |txs| ==> txs[i] in obs && txs[i] in obs' && obs[txs[i]] == obs'[txs[i]]
    ensures FromBin(obs, txs, k) == FromBin(obs', txs, k)
  {
    if txs != [] {
      FromBinSame(obs, obs', txs[1..], k);
    }
  }

  lemma {:induction false} FromBinAppend(obs: TxMap, txs: seq<Hash>, h: Hash, k: int)
    requires h in obs
    ensures FromBin(obs, txs + [h], k) == FromBin(obs, txs, k) + if BinOf(obs[h]) == k then [h] else []
  {
    if txs == [] {
      assert txs + [h] == [h];
    } else {
      assert (txs + [h])[1..] == txs[1..] + [h];
      FromBinAppend(obs, txs[1..], h, k);
    }
  }

  /** Rolling back one bin */

  // clean is done; the bin's original content from position p on is still to be looked at;
  // todo are the dropped transactions still to be put back.
  ghost predicate BinProgress(b: Est, a: Est, k: int, clean: seq<Hash>, p: nat, todo: seq<Hash>)
    requires |a.bins| == DEPTH && |b.bins| == DEPTH && 0 <= k < DEPTH
  {
    && p <= |a.bins[k]|
    && multiset(clean) + multiset(Unmarked(a.observed, a.height, a.bins[k][p..])) + multiset(todo)
      == multiset(b.bins[k])
    && |todo| <= CountMarked(a.observed, a.height, a.bins[k][p..])
  }

  lemma NextSlot(a: Est, k: int, p: nat)
    requires |a.bins| == DEPTH && 0 <= k < DEPTH && p < |a.bins[k]|
    ensures var x, rest := a.bins[k][p], a.bins[k][p + 1..];
      && a.bins[k][p..] == [x] + rest
      && Unmarked(a.observed, a.height, a.bins[k][p..])
         == (if Marked(a.observed, a.height, x) then [] else [x]) + Unmarked(a.observed, a.height, rest)
      && CountMarked(a.observed, a.height, a.bins[k][p..])
         == (if Marked(a.observed, a.height, x) then 1 else 0) + CountMarked(a.observed, a.height, rest)
  {
    assert a.bins[k][p..][1..] == a.bins[k][p + 1..];
  }

  lemma ProgressKeep(b: Est, a: Est, k: int, clean: seq<Hash>, p: nat, todo: seq<Hash>)
    requires |a.bins| == DEPTH && |b.bins| == DEPTH && 0 <= k < DEPTH
    requires BinProgress(b, a, k, clean, p, todo) && p < |a.bins[k]| && !Marked(a.observed, a.height, a.bins[k][p])
    ensures BinProgress(b, a, k, clean + [a.bins[k][p]], p + 1, todo)
  {
    hide Unmarked, CountMarked, Marked;
    NextSlot(a, k, p);
    MultisetCons(clean, a.bins[k][p], Unmarked(a.observed, a.height, a.bins[k][p + 1..]));
  }

  lemma ProgressReplace(b: Est, a: Est, k: int, clean: seq<Hash>, p: nat, o: Hash, todo: seq<Hash>)
    requires |a.bins| == DEPTH && |b.bins| == DEPTH && 0 <= k < DEPTH
    requires BinProgress(b, a, k, clean, p, [o] + todo) && p < |a.bins[k]| && Marked(a.observed, a.height, a.bins[k][p])
    ensures BinProgress(b, a, k, clean + [o], p + 1, todo)
  {
    hide Unmarked, CountMarked, Marked;
    NextSlot(a, k, p);
    MultisetCons(clean, o, todo);
    assert [] + Unmarked(a.observed, a.height, a.bins[k][p + 1..])
      == Unmarked(a.observed, a.height, a.bins[k][p + 1..]);
  }

  lemma ProgressRemove(b: Est, a: Est, k: int, clean: seq<Hash>, p: nat)
    requires |a.bins| == DEPTH && |b.bins| == DEPTH && 0 <= k < DEPTH
    requires BinProgress(b, a, k, clean, p, []) && p < |a.bins[k]| && Marked(a.observed, a.height, a.bins[k][p])
    ensures BinProgress(b, a, k, clean, p + 1, [])
  {
    hide Unmarked, CountMarked, Marked;
    NextSlot(a, k, p);
    assert [] + Unmarked(a.observed, a.height, a.bins[k][p + 1..])
      == Unmarked(a.observed, a.height, a.bins[k][p + 1..]);
  }

  lemma MultisetCons(s: seq<Hash>, x: Hash, t: seq<Hash>)
    ensures multiset(s) + multiset([x] + t) == multiset(s + [x]) + multiset(t)
  {
  }

  // The observed map after the marked transactions of the first p[k] slots of each bin k
  // have been unmarked.
  ghost predicate ClearedUpTo(a: Est, obs: TxMap, p: seq<nat>) {
    && |p| == DEPTH && |a.bins| == DEPTH
    && (forall k :: 0 <= k < DEPTH ==> p[k] <= |a.bins[k]|)
    && obs.Keys == a.observed.Keys
    && forall h :: h in obs ==> obs[h] == if Cleared(a, p, h) then a.observed[h].(mined := UNMINED) else a.observed[h]
  }

  ghost predicate Cleared(a: Est, p: seq<nat>, h: Hash)
    requires |p| == DEPTH && |a.bins| == DEPTH
    requires forall k :: 0 <= k < DEPTH ==> p[k] <= |a.bins[k]|
  {
    && Marked(a.observed, a.height, h)
    && 0 <= BinOf(a.observed[h]) < DEPTH
    && h in a.bins[BinOf(a.observed[h])][..p[BinOf(a.observed[h])]]
  }

  // The slot just reached still shows its original mark.
  lemma SlotMark(a: Est, obs: TxMap, p: seq<nat>, k: int)
    requires BinsOk(a.observed, a.bins) && ClearedUpTo(a, obs, p) && a.height != UNMINED
    requires 0 <= k < DEPTH && p[k] < |a.bins[k]|
    ensures a.bins[k][p[k]] in obs
    ensures Marked(obs, a.height, a.bins[k][p[k]]) <==> Marked(a.observed, a.height, a.bins[k][p[k]])
    ensures Marked(a.observed, a.height, a.bins[k][p[k]]) ==> obs[a.bins[k][p[k]]] == a.observed[a.bins[k][p[k]]]
  {
    var x := a.bins[k][p[k]];
    assert BinOk(a.observed, a.bins[k], k);
    assert x !in a.bins[k][..p[k]];
  }

  lemma ClearNext(a: Est, obs: TxMap, p: seq<nat>, k: int)
    requires BinsOk(a.observed, a.bins) && ClearedUpTo(a, obs, p) && a.height != UNMINED
    requires 0 <= k < DEPTH && p[k] < |a.bins[k]|
    ensures var x := a.bins[k][p[k]];
      ClearedUpTo(a, if Marked(a.observed, a.height, x) then obs[x := a.observed[x].(mined := UNMINED)] else obs,
                  p[k := p[k] + 1])
  {
    var x := a.bins[k][p[k]];
    var p' := p[k := p[k] + 1];
    assert BinOk(a.observed, a.bins[k], k);
    assert a.bins[k][..p[k] + 1] == a.bins[k][..p[k]] + [x];
    assert x in a.observed;
    forall h | h in obs
      ensures Cleared(a, p', h) <==> Cleared(a, p, h) || (h == x && Marked(a.observed, a.height, x))
    {
      if BinOf(a.observed[h]) == k {
        assert h in a.bins[k][..p[k] + 1] <==> h in a.bins[k][..p[k]] || h == x;
      }
    }
  }

  // Bin k with its first c slots done in place.
  ghost predicate InPlace(b: Est, a: Est, k: int, bin: seq<Hash>, c: nat, todo: seq<Hash>)
    requires |a.bins| == DEPTH && |b.bins| == DEPTH && 0 <= k < DEPTH
  {
    && |bin| == |a.bins[k]| && c <= |bin|
    && bin[c..] == a.bins[k][c..]
    && BinProgress(b, a, k, bin[..c], c, todo)
  }

  lemma InPlaceKeep(b: Est, a: Est, k: int, bin: seq<Hash>, c: nat, todo: seq<Hash>)
    requires |a.bins| == DEPTH && |b.bins| == DEPTH && 0 <= k < DEPTH
    requires InPlace(b, a, k, bin, c, todo) && c < |bin|
    ensures bin[c] == a.bins[k][c]
    ensures !Marked(a.observed, a.height, bin[c]) ==> InPlace(b, a, k, bin, c + 1, todo)
  {
    hide BinProgress;
    assert bin[c] == bin[c..][0] == a.bins[k][c..][0];
    assert bin[c + 1..] == bin[c..][1..] == a.bins[k][c..][1..] == a.bins[k][c + 1..];
    if !Marked(a.observed, a.height, bin[c]) {
      ProgressKeep(b, a, k, bin[..c], c, todo);
      assert bin[..c + 1] == bin[..c] + [bin[c]];
    }
  }

  lemma InPlaceReplace(b: Est, a: Est, k: int, bin: seq<Hash>, c: nat, o: Hash, todo: seq<Hash>)
    requires |a.bins| == DEPTH && |b.bins| == DEPTH && 0 <= k < DEPTH
    requires InPlace(b, a, k, bin, c, [o] + todo) && c < |bin| && Marked(a.observed, a.height, bin[c])
    ensures InPlace(b, a, k, bin[c := o], c + 1, todo)
  {
    hide BinProgress;
    InPlaceKeep(b, a, k, bin, c, [o] + todo);
    ProgressReplace(b, a, k, bin[..c], c, o, todo);
    assert bin[c := o][..c + 1] == bin[..c] + [o];
    assert bin[c := o][c + 1..] == bin[c..][1..] == a.bins[k][c..][1..] == a.bins[k][c + 1..];
  }

  lemma InPlaceMore(b: Est, a: Est, k: int, bin: seq<Hash>, c: nat, todo: seq<Hash>)
    requires |a.bins| == DEPTH && |b.bins| == DEPTH && 0 <= k < DEPTH
    requires InPlace(b, a, k, bin, c, todo) && todo != []
    ensures c < |bin|
  {
  }

  // Put one dropped transaction back over the next one mined in this block.  Running off
  // the end of the bin would be the source's "illegal state" panic; it cannot happen.
  method ReplaceNext(ghost b: Est, ghost a: Est, k: nat, height: int, obs: TxMap, bin: seq<Hash>, counter: nat, o: Hash,
                     ghost counters: seq<nat>, ghost todo: seq<Hash>)
    returns (obs': TxMap, bin': seq<Hash>, counter': nat)
    requires BinsOk(a.observed, a.bins) && |b.bins| == DEPTH && k < DEPTH && height == a.height != UNMINED
    requires |counters| == DEPTH && counters[k] == counter && ClearedUpTo(a, obs, counters)
    requires InPlace(b, a, k, bin, counter, [o] + todo)
    ensures InPlace(b, a, k, bin', counter', todo)
    ensures ClearedUpTo(a, obs', counters[k := counter'])
  {
    hide InPlace, ClearedUpTo;
    var c: nat := counter;
    ghost var p: seq<nat> := counters;
    assert counters[k := counter] == counters;
    while true
      invariant |p| == DEPTH && p[k] == c && p == counters[k := c]
      invariant InPlace(b, a, k, bin, c, [o] + todo) && ClearedUpTo(a, obs, p)
      decreases |bin| - c
    {
      InPlaceMore(b, a, k, bin, c, [o] + todo);
      InPlaceKeep(b, a, k, bin, c, [o] + todo);
      ClearedLength(a, obs, p, k, c, b, bin, [o] + todo);
      SlotMark(a, obs, p, k);
      ClearNext(a, obs, p, k);
      var prev := bin[c];
      if obs[prev].mined == height {
        InPlaceReplace(b, a, k, bin, c, o, todo);
        obs' := obs[prev := obs[prev].(mined := UNMINED)];
        bin' := bin[c := o];
        counter' := c + 1;
        assert p[k := c + 1] == counters[k := counter'];
        return;
      }
      c := c + 1;
      p := p[k := c];
    }
  }

  lemma ClearedLength(a: Est, obs: TxMap, p: seq<nat>, k: int, c: nat, b: Est, bin: seq<Hash>, todo: seq<Hash>)
    requires |a.bins| == DEPTH && |b.bins| == DEPTH && 0 <= k < DEPTH && |p| == DEPTH && p[k] == c
    requires InPlace(b, a, k, bin, c, todo) && ClearedUpTo(a, obs, p) && c < |bin|
    ensures |a.bins[k]| == |bin| && p[k] < |a.bins[k]|
  {
  }

  /** Removing what is left: transactions of this block that had replaced none */

  // Slots before j are done; the original content from position p on is still to be seen.
  ghost predicate Shrinking(b: Est, a: Est, k: int, bin: seq<Hash>, j: nat, p: nat)
    requires |a.bins| == DEPTH && |b.bins| == DEPTH && 0 <= k < DEPTH
  {
    && j <= |bin| && p <= |a.bins[k]|
    && bin[j..] == a.bins[k][p..]
    && BinProgress(b, a, k, bin[..j], p, [])
  }

  lemma ShrinkingStart(b: Est, a: Est, k: int, bin: seq<Hash>, c: nat)
    requires |a.bins| == DEPTH && |b.bins| == DEPTH && 0 <= k < DEPTH
    requires InPlace(b, a, k, bin, c, [])
    ensures Shrinking(b, a, k, bin, c, c)
  {
  }

  lemma ShrinkingStep(b: Est, a: Est, k: int, bin: seq<Hash>, j: nat, p: nat)
    requires |a.bins| == DEPTH && |b.bins| == DEPTH && 0 <= k < DEPTH
    requires Shrinking(b, a, k, bin, j, p) && j < |bin|
    ensures p < |a.bins[k]| && bin[j] == a.bins[k][p]
    ensures if Marked(a.observed, a.height, bin[j]) then Shrinking(b, a, k, bin[..j] + bin[j + 1..], j, p + 1)
            else Shrinking(b, a, k, bin, j + 1, p + 1)
  {
    hide BinProgress;
    assert bin[j] == bin[j..][0] == a.bins[k][p..][0];
    assert bin[j + 1..] == bin[j..][1..] == a.bins[k][p..][1..] == a.bins[k][p + 1..];
    if Marked(a.observed, a.height, bin[j]) {
      ProgressRemove(b, a, k, bin[..j], p);
      assert (bin[..j] + bin[j + 1..])[..j] == bin[..j];
      assert (bin[..j] + bin[j + 1..])[j..] == bin[j + 1..];
    } else {
      ProgressKeep(b, a, k, bin[..j], p, []);
      assert bin[..j + 1] == bin[..j] + [bin[j]];
    }
  }

  lemma ShrinkingDone(b: Est, a: Est, k: int, bin: seq<Hash>, j: nat, p: nat)
    requires |a.bins| == DEPTH && |b.bins| == DEPTH && 0 <= k < DEPTH
    requires Shrinking(b, a, k, bin, j, p) && j == |bin|
    ensures p == |a.bins[k]| && multiset(bin) == multiset(b.bins[k])
  {
    assert bin[..j] == bin;
    assert |a.bins[k][p..]| == 0;
  }

  method RemoveRest(ghost b: Est, ghost a: Est, k: nat, height: int, obs: TxMap, bin: seq<Hash>, counter: nat,
                    ghost p0: seq<nat>)
    returns (obs': TxMap, bin': seq<Hash>)
    requires BinsOk(a.observed, a.bins) && |b.bins| == DEPTH && k < DEPTH && height == a.height != UNMINED
    requires |p0| == DEPTH && p0[k] == counter && ClearedUpTo(a, obs, p0)
    requires InPlace(b, a, k, bin, counter, [])
    ensures multiset(bin') == multiset(b.bins[k])
    ensures ClearedUpTo(a, obs', p0[k := |a.bins[k]|])
  {
    hide ClearedUpTo, Shrinking, BinProgress;
    obs', bin' := obs, bin;
    var j: nat := counter;
    ghost var p: nat := counter;
    assert Shrinking(b, a, k, bin, counter, counter) by { ShrinkingStart(b, a, k, bin, counter); }
    assert p0[k := counter] == p0;
    while j < |bin'|
      invariant j <= |bin'| && Shrinking(b, a, k, bin', j, p) && ClearedUpTo(a, obs', p0[k := p])
      decreases |bin'| - j
    {
      ghost var q: seq<nat> := p0[k := p];
      ShrinkingStep(b, a, k, bin', j, p);
      SlotMark(a, obs', q, k);
      ClearNext(a, obs', q, k);
      assert q[k := p + 1] == p0[k := p + 1];
      var prev := bin'[j];
      if obs'[prev].mined == height {
        obs' := obs'[prev := obs'[prev].(mined := UNMINED)];
        bin' := bin'[..j] + bin'[j + 1..];
      } else {
        j := j + 1;
      }
      p := p + 1;
    }
    ShrinkingDone(b, a, k, bin', j, p);
  }

  /** Rolling back a whole block */

  // Every bin has its first counters[k] slots done; txs are still to be put back.
  ghost predicate AllInPlace(b: Est, a: Est, bins: seq<seq<Hash>>, counters: seq<nat>, txs: seq<Hash>) {
    && |a.bins| == |b.bins| == |bins| == |counters| == DEPTH
    && forall k :: 0 <= k < DEPTH ==> InPlace(b, a, k, bins[k], counters[k], FromBin(a.observed, txs, k))
  }

  lemma AllInPlaceStart(b: Est, a: Est, txs: seq<Hash>, top: int)
    requires Undoable(b, a, txs, top)
    ensures var zero := seq(DEPTH, _ => 0);
      AllInPlace(b, a, a.bins, zero, txs) && ClearedUpTo(a, a.observed, zero)
  {
    hide Unmarked, CountMarked, FromBin, MarksUndoable;
    var zero: seq<nat> := seq(DEPTH, _ => 0);
    forall k | 0 <= k < DEPTH
      ensures InPlace(b, a, k, a.bins[k], zero[k], FromBin(a.observed, txs, k))
    {
      assert BinUndoable(b, a, txs, k);
      assert a.bins[k][0..] == a.bins[k] && a.bins[k][..0] == [];
    }
    assert forall h :: h in a.observed ==> !Cleared(a, zero, h);
  }

  lemma AllInPlaceStep(b: Est, a: Est, bins: seq<seq<Hash>>, counters: seq<nat>, txs: seq<Hash>, bin': seq<Hash>,
                       c': nat)
    requires txs != [] && txs[0] in a.observed && 0 <= BinOf(a.observed[txs[0]]) < DEPTH
    requires AllInPlace(b, a, bins, counters, txs)
    requires var k := BinOf(a.observed[txs[0]]); InPlace(b, a, k, bin', c', FromBin(a.observed, txs[1..], k))
    ensures var k := BinOf(a.observed[txs[0]]);
      AllInPlace(b, a, bins[k := bin'], counters[k := c'], txs[1..])
  {
    hide InPlace;
  }

  // Run the undo record over the bins, then take out the rest of this block's transactions.
  method UndoBins(ghost b: Est, ghost a: Est, height: int, observed: TxMap, bins: seq<seq<Hash>>, txs: seq<Hash>,
                  ghost top: int)
    returns (obs': TxMap, bins': seq<seq<Hash>>)
    requires Undoable(b, a, txs, top) && height == a.height && observed == a.observed && bins == a.bins
    ensures |bins'| == DEPTH
    ensures forall k :: 0 <= k < DEPTH ==> multiset(bins'[k]) == multiset(b.bins[k])
    ensures ClearedUpTo(a, obs', seq(DEPTH, k requires 0 <= k < |a.bins| => |a.bins[k]|))
  {
    var counters: seq<nat>;
    obs', bins', counters := ReplaceDropped(b, a, height, observed, bins, txs, top);
    obs', bins' := RemoveAdded(b, a, height, obs', bins', counters);
  }

  method ReplaceDropped(ghost b: Est, ghost a: Est, height: int, observed: TxMap, bins: seq<seq<Hash>>, txs: seq<Hash>,
                        ghost top: int)
    returns (obs': TxMap, bins': seq<seq<Hash>>, counters: seq<nat>)
    requires Undoable(b, a, txs, top) && height == a.height && observed == a.observed && bins == a.bins
    ensures AllInPlace(b, a, bins', counters, []) && ClearedUpTo(a, obs', counters)
  {
    hide InPlace, BinUndoable, MarksUndoable, ClearedUpTo, FromBin, BinOk;
    counters := seq(DEPTH, _ => 0);
    obs', bins' := observed, bins;
    AllInPlaceStart(b, a, txs, top);
    assert txs[0..] == txs;
    for i := 0 to |txs|
      invariant AllInPlace(b, a, bins', counters, txs[i..])
      invariant ClearedUpTo(a, obs', counters)
    {
      var o := txs[i];
      assert Droppable(a.observed, a.height, txs[i]);
      NotCleared(a, obs', counters, o);
      var k := BinOf(obs'[o]);
      FromBinHead(a.observed, txs, i);
      ghost var todo := FromBin(a.observed, txs[i + 1..], k);
      assert InPlace(b, a, k, bins'[k], counters[k], [o] + todo);
      var bin, c;
      obs', bin, c := ReplaceNext(b, a, k, height, obs', bins'[k], counters[k], o, counters, todo);
      AllInPlaceStep(b, a, bins', counters, txs[i..], bin, c);
      bins', counters := bins'[k := bin], counters[k := c];
    }
    assert txs[|txs|..] == [];
  }

  lemma NotCleared(a: Est, obs: TxMap, p: seq<nat>, o: Hash)
    requires ClearedUpTo(a, obs, p) && Droppable(a.observed, a.height, o)
    ensures o in obs && obs[o] == a.observed[o]
  {
  }

  lemma FromBinHead(obs: TxMap, txs: seq<Hash>, i: nat)
    requires i < |txs| && txs[i] in obs
    ensures txs[i..][0] == txs[i] && txs[i..][1..] == txs[i + 1..]
    ensures FromBin(obs, txs[i..], BinOf(obs[txs[i]])) == [txs[i]] + FromBin(obs, txs[i + 1..], BinOf(obs[txs[i]]))
  {
    assert txs[i..][1..] == txs[i + 1..];
  }

  method RemoveAdded(ghost b: Est, ghost a: Est, height: int, observed: TxMap, bins: seq<seq<Hash>>, counters: seq<nat>)
    returns (obs': TxMap, bins': seq<seq<Hash>>)
    requires BinsOk(a.observed, a.bins) && |b.bins| == DEPTH && height == a.height != UNMINED
    requires AllInPlace(b, a, bins, counters, []) && ClearedUpTo(a, observed, counters)
    ensures |bins'| == DEPTH
    ensures forall k :: 0 <= k < DEPTH ==> multiset(bins'[k]) == multiset(b.bins[k])
    ensures ClearedUpTo(a, obs', seq(DEPTH, k requires 0 <= k < |a.bins| => |a.bins[k]|))
  {
    hide InPlace, ClearedUpTo, BinOk, FromBin;
    obs', bins' := observed, bins;
    ghost var p: seq<nat> := counters;
    for i := 0 to DEPTH
      invariant |bins'| == DEPTH && |p| == DEPTH && ClearedUpTo(a, obs', p)
      invariant forall k :: 0 <= k < i ==> multiset(bins'[k]) == multiset(b.bins[k]) && p[k] == |a.bins[k]|
      invariant forall k :: i <= k < DEPTH ==> bins'[k] == bins[k] && p[k] == counters[k]
    {
      var bin;
      FromBinNone(a.observed, i);
      obs', bin := RemoveRest(b, a, i, height, obs', bins'[i], counters[i], p);
      bins', p := bins'[i := bin], p[i := |a.bins[i]|];
    }
    assert p == seq(DEPTH, k requires 0 <= k < |a.bins| => |a.bins[k]|);
  }

  lemma FromBinNone(obs: TxMap, k: int)
    ensures FromBin(obs, [], k) == []
  {
  }

  lemma UndoneRestores(b: Est, a: Est, txs: seq<Hash>, top: int, r: Est)
    requires Undoable(b, a, txs, top)
    requires |r.bins| == DEPTH && forall k :: 0 <= k < DEPTH ==> multiset(r.bins[k]) == multiset(b.bins[k])
    requires ClearedUpTo(a, r.observed, seq(DEPTH, k requires 0 <= k < |a.bins| => |a.bins[k]|))
    requires r.height == a.height - 1 && r.numBlocks == a.numBlocks - 1
    ensures Restored(b, r, top)
  {
    hide BinUndoable, BinOk, Droppable, MayBeLost;
    var p: seq<nat> := seq(DEPTH, k requires 0 <= k < |a.bins| => |a.bins[k]|);
    forall h ensures Traces(b.observed, r.observed, UNMINED, h, top) {
      assert Traces(b.observed, a.observed, a.height, h, top);
      if h in a.observed {
        assert Cleared(a, p, h) <==> Marked(a.observed, a.height, h) by {
          if Marked(a.observed, a.height, h) {
            var k := BinOf(a.observed[h]);
            assert a.bins[k][..p[k]] == a.bins[k];
          }
        }
      }
    }
  }

  /** One rollback after another: a restored state can be rolled back further */

  lemma {:induction false} UnmarkedCount(obs: TxMap, height: int, s: seq<Hash>, h: Hash)
    ensures multiset(Unmarked(obs, height, s))[h] == if Marked(obs, height, h) then 0 else multiset(s)[h]
    ensures |Unmarked(obs, height, s)| + CountMarked(obs, height, s) == |s|
  {
    if s != [] {
      assert s == [s[0]] + s[1..];
      UnmarkedCount(obs, height, s[1..], h);
    }
  }

  lemma UnmarkedPermuted(obs: TxMap, height: int, s: seq<Hash>, t: seq<Hash>)
    requires multiset(s) == multiset(t)
    ensures multiset(Unmarked(obs, height, s)) == multiset(Unmarked(obs, height, t))
    ensures CountMarked(obs, height, s) == CountMarked(obs, height, t)
  {
    forall h ensures multiset(Unmarked(obs, height, s))[h] == multiset(Unmarked(obs, height, t))[h] {
      UnmarkedCount(obs, height, s, h);
      UnmarkedCount(obs, height, t, h);
    }
    assert |multiset(s)| == |s| && |multiset(t)| == |t|;
    assert |multiset(Unmarked(obs, height, s))| == |Unmarked(obs, height, s)|;
    assert |multiset(Unmarked(obs, height, t))| == |Unmarked(obs, height, t)|;
    UnmarkedCount(obs, height, s, 0);
    UnmarkedCount(obs, height, t, 0);
  }

  lemma PermutedBinOk(obs: TxMap, obs': TxMap, s: seq<Hash>, t: seq<Hash>, k: int)
    requires BinOk(obs, s, k) && multiset(s) == multiset(t)
    requires forall h :: h in obs && obs[h].mined != UNMINED ==> h in obs' && obs'[h] == obs[h]
    ensures BinOk(obs', t, k)
  {
    forall i | 0 <= i < |t| ensures t[i] in s {
      assert t[i] in multiset(t);
    }
    forall i, j | 0 <= i < j < |t| ensures t[i] != t[j] {
      if t[i] == t[j] {
        TwiceCounted(t, i, j);
        OnceCounted(s, t[i]);
        assert false;
      }
    }
  }

  lemma TwiceCounted(t: seq<Hash>, i: nat, j: nat)
    requires i < j < |t| && t[i] == t[j]
    ensures multiset(t)[t[i]] >= 2
  {
    assert t == t[..i] + [t[i]] + t[i + 1..j] + [t[j]] + t[j + 1..];
  }

  lemma {:induction false} OnceCounted(s: seq<Hash>, h: Hash)
    requires NoDup(s)
    ensures multiset(s)[h] <= 1
  {
    if s != [] {
      assert s == [s[0]] + s[1..];
      OnceCounted(s[1..], h);
      if s[0] == h {
        assert h !in s[1..];
      }
    }
  }

  lemma RestoredUndoable(c: Est, b: Est, txs: seq<Hash>, r: Est, top: int)
    requires BinsOk(b.observed, b.bins) && Undoable(c, b, txs, top) && Restored(b, r, top)
    ensures Undoable(c, r, txs, top)
  {
    hide Unmarked, CountMarked, FromBin, BinOk;
    assert b.height != UNMINED;
    forall h | h in b.observed && b.observed[h].mined != UNMINED
      ensures h in r.observed && r.observed[h] == b.observed[h]
    {
      assert Traces(b.observed, r.observed, UNMINED, h, top);
    }
    forall k | 0 <= k < DEPTH ensures BinOk(r.observed, r.bins[k], k) {
      PermutedBinOk(b.observed, r.observed, b.bins[k], r.bins[k], k);
    }
    forall i | 0 <= i < |txs| ensures Droppable(r.observed, r.height, txs[i]) {
      assert Droppable(b.observed, b.height, txs[i]);
    }
    RestoredMarks(c, b, r, top);
    forall k | 0 <= k < DEPTH ensures BinUndoable(c, r, txs, k) {
      assert BinUndoable(c, b, txs, k);
      RestoredBin(c, b, txs, r, top, k);
    }
  }

  lemma RestoredMarks(c: Est, b: Est, r: Est, top: int)
    requires MarksUndoable(c, b, top) && Restored(b, r, top) && b.height < UNMINED && |b.bins| == DEPTH
    ensures MarksUndoable(c, r, top)
  {
    forall h ensures Traces(c.observed, r.observed, r.height, h, top) {
      assert Traces(b.observed, r.observed, UNMINED, h, top);
      assert Traces(c.observed, b.observed, b.height, h, top);
    }
    forall h | Marked(r.observed, r.height, h)
      ensures 0 <= BinOf(r.observed[h]) < |r.bins| && h in r.bins[BinOf(r.observed[h])]
    {
      assert Traces(b.observed, r.observed, UNMINED, h, top);
      assert Marked(b.observed, b.height, h);
      var k := BinOf(b.observed[h]);
      assert h in multiset(b.bins[k]);
      assert h in multiset(r.bins[k]);
    }
  }

  lemma RestoredBin(c: Est, b: Est, txs: seq<Hash>, r: Est, top: int, k: int)
    requires |b.bins| == DEPTH && |c.bins| == DEPTH && 0 <= k < DEPTH && BinOk(b.observed, b.bins[k], k)
    requires Restored(b, r, top) && BinUndoable(c, b, txs, k)
    requires forall i :: 0 <= i < |txs| ==> Droppable(b.observed, b.height, txs[i])
    requires forall h :: h in b.observed && b.observed[h].mined != UNMINED ==>
      h in r.observed && r.observed[h] == b.observed[h]
    ensures BinUndoable(c, r, txs, k)
  {
    hide Unmarked, CountMarked, FromBin, Traces;
    UnmarkedPermuted(b.observed, b.height, b.bins[k], r.bins[k]);
    forall i | 0 <= i < |r.bins[k]|
      ensures Marked(b.observed, b.height, r.bins[k][i]) <==> Marked(r.observed, b.height, r.bins[k][i])
    {
      assert r.bins[k][i] in multiset(r.bins[k]);
    }
    UnmarkedSame(b.observed, r.observed, b.height, r.bins[k]);
    forall i | 0 <= i < |txs| ensures txs[i] in b.observed && txs[i] in r.observed
      && b.observed[txs[i]] == r.observed[txs[i]] {
      assert Droppable(b.observed, b.height, txs[i]);
    }
    FromBinSame(b.observed, r.observed, txs, k);
  }

  /** Registering a block */

  // Bin k part way through a block that has put cnt transactions into it.
  ghost predicate BinFilling(b: Est, obs: TxMap, height: int, k: int, bin: seq<Hash>, cnt: nat, txs: seq<Hash>,
                             binSize: nat)
    requires |b.bins| == DEPTH && 0 <= k < DEPTH
  {
    && BinOk(obs, bin, k) && |bin| <= binSize
    && multiset(Unmarked(obs, height, bin)) + multiset(FromBin(obs, txs, k)) == multiset(b.bins[k])
    && |FromBin(obs, txs, k)| <= CountMarked(obs, height, bin) == cnt
    && (FromBin(obs, txs, k) != [] ==> |bin| == binSize)
    && forall i :: 0 <= i < |bin| - 1 - cnt ==> !Marked(obs, height, bin[i])
  }

  // The mined marks part way through a block: only its transactions differ, and each of
  // those sits in its bin.
  ghost predicate MarksFilling(b: Est, obs: TxMap, height: int, bins: seq<seq<Hash>>) {
    && height < UNMINED && |bins| == DEPTH
    && obs.Keys == b.observed.Keys
    && (forall h :: h in obs ==> b.observed[h] == Unmark(height, obs[h]))
    && (forall h :: Marked(obs, height, h) ==> 0 <= BinOf(obs[h]) < DEPTH && h in bins[BinOf(obs[h])])
  }

  ghost predicate Filling(b: Est, obs: TxMap, height: int, bins: seq<seq<Hash>>, counts: seq<nat>, txs: seq<Hash>,
                          binSize: nat, maxReplacements: nat)
  {
    && |b.bins| == |bins| == |counts| == DEPTH
    && MarksFilling(b, obs, height, bins)
    && (forall i :: 0 <= i < |txs| ==> Droppable(obs, height, txs[i]))
    && (forall k :: 0 <= k < DEPTH ==> counts[k] <= maxReplacements)
    && (forall k :: 0 <= k < DEPTH ==> BinFilling(b, obs, height, k, bins[k], counts[k], txs, binSize))
  }

  // Mining one more transaction moves nothing among those mined before.
  lemma MineOne(obs: TxMap, height: int, o: Hash, s: seq<Hash>)
    requires o in obs && obs[o].mined == UNMINED
    requires forall i :: 0 <= i < |s| ==> s[i] in obs && obs[s[i]].mined != UNMINED
    ensures var obs' := obs[o := obs[o].(mined := height)];
      && Unmarked(obs', height, s) == Unmarked(obs, height, s)
      && CountMarked(obs', height, s) == CountMarked(obs, height, s)
      && forall k :: FromBin(obs', s, k) == FromBin(obs, s, k)
  {
    var obs' := obs[o := obs[o].(mined := height)];
    UnmarkedSame(obs, obs', height, s);
    forall k ensures FromBin(obs', s, k) == FromBin(obs, s, k) {
      FromBinSame(obs, obs', s, k);
    }
  }

  lemma FillingOther(b: Est, obs: TxMap, height: int, k: int, bin: seq<Hash>, cnt: nat, txs: seq<Hash>, binSize: nat,
                     o: Hash, extra: seq<Hash>)
    requires |b.bins| == DEPTH && 0 <= k < DEPTH
    requires BinFilling(b, obs, height, k, bin, cnt, txs, binSize) && height < UNMINED
    requires o in obs && obs[o].mined == UNMINED
    requires forall i :: 0 <= i < |txs| ==> Droppable(obs, height, txs[i])
    requires |extra| <= 1 && (extra != [] ==>
      extra[0] in obs && obs[extra[0]].mined != UNMINED && BinOf(obs[extra[0]]) != k)
    ensures BinFilling(b, obs[o := obs[o].(mined := height)], height, k, bin, cnt, txs + extra, binSize)
  {
    hide Unmarked, CountMarked, FromBin;
    var obs' := obs[o := obs[o].(mined := height)];
    assert forall i :: 0 <= i < |txs| ==> Droppable(obs, height, txs[i]);
    MineOne(obs, height, o, bin);
    MineOne(obs, height, o, txs);
    if extra == [] {
      assert txs + extra == txs;
    } else {
      assert extra == [extra[0]];
      FromBinAppend(obs', txs, extra[0], k);
    }
  }

  lemma FillingAppend(b: Est, obs: TxMap, height: int, k: int, bin: seq<Hash>, cnt: nat, txs: seq<Hash>, binSize: nat,
                      o: Hash)
    requires |b.bins| == DEPTH && 0 <= k < DEPTH
    requires BinFilling(b, obs, height, k, bin, cnt, txs, binSize) && height < UNMINED
    requires o in obs && obs[o].mined == UNMINED && height - obs[o].observed - 1 == k
    requires forall i :: 0 <= i < |txs| ==> Droppable(obs, height, txs[i])
    requires |bin| < binSize
    ensures BinFilling(b, obs[o := obs[o].(mined := height)], height, k, bin + [o], cnt + 1, txs, binSize)
  {
    hide Unmarked, CountMarked, FromBin;
    var obs' := obs[o := obs[o].(mined := height)];
    MineOne(obs, height, o, bin);
    assert forall i :: 0 <= i < |txs| ==> Droppable(obs, height, txs[i]);
    MineOne(obs, height, o, txs);
    UnmarkedSplit(obs', height, bin, [o]);
    UnmarkedOne(obs', height, o);
    assert Unmarked(obs', height, bin) + [] == Unmarked(obs', height, bin);
  }

  lemma UnmarkedOne(obs: TxMap, height: int, o: Hash)
    ensures Unmarked(obs, height, [o]) == if Marked(obs, height, o) then [] else [o]
    ensures CountMarked(obs, height, [o]) == if Marked(obs, height, o) then 1 else 0
  {
    assert [o][1..] == [];
    assert Unmarked(obs, height, []) == [];
  }

  // The swap that overwrites slot drop: the element just before this block's own ones
  // moves into it and the new transaction takes that place.
  function Overwrite(bin: seq<Hash>, l: nat, drop: nat, o: Hash): seq<Hash>
    requires drop < l <= |bin|
  {
    bin[drop := bin[l - 1]][l - 1 := o]
  }

  lemma OverwriteMultiset(bin: seq<Hash>, l: nat, drop: nat, o: Hash)
    requires drop < l <= |bin|
    ensures multiset(Overwrite(bin, l, drop, o)) + multiset{bin[drop]} == multiset(bin) + multiset{o}
  {
    var mid := bin[drop := bin[l - 1]];
    assert multiset(mid) == multiset(bin) - multiset{bin[drop]} + multiset{bin[l - 1]};
    assert multiset(mid[l - 1 := o]) == multiset(mid) - multiset{mid[l - 1]} + multiset{o};
    assert bin[drop] in multiset(bin) && mid[l - 1] in multiset(mid);
  }

  lemma OverwriteUnmarked(obs: TxMap, height: int, bin: seq<Hash>, l: nat, drop: nat, o: Hash)
    requires drop < l <= |bin| && Marked(obs, height, o) && !Marked(obs, height, bin[drop])
    ensures var bin' := Overwrite(bin, l, drop, o);
      && multiset(Unmarked(obs, height, bin')) + multiset{bin[drop]} == multiset(Unmarked(obs, height, bin))
      && CountMarked(obs, height, bin') == CountMarked(obs, height, bin) + 1
  {
    hide Unmarked, CountMarked, Marked, Overwrite;
    var bin' := Overwrite(bin, l, drop, o);
    OverwriteMultiset(bin, l, drop, o);
    var u, u' := Unmarked(obs, height, bin), Unmarked(obs, height, bin');
    forall h ensures (multiset(u') + multiset{bin[drop]})[h] == multiset(u)[h] {
      UnmarkedCount(obs, height, bin, h);
      UnmarkedCount(obs, height, bin', h);
      assert (multiset(bin') + multiset{bin[drop]})[h] == (multiset(bin) + multiset{o})[h];
    }
    assert multiset(u') + multiset{bin[drop]} == multiset(u);
    assert |multiset(u') + multiset{bin[drop]}| == |u'| + 1;
    assert |multiset(u)| == |u|;
    assert |multiset(bin') + multiset{bin[drop]}| == |bin'| + 1;
    assert |multiset(bin) + multiset{o}| == |bin| + 1;
    UnmarkedCount(obs, height, bin, 0);
    UnmarkedCount(obs, height, bin', 0);
  }

  lemma FillingDrop(b: Est, obs: TxMap, height: int, k: int, bin: seq<Hash>, cnt: nat, txs: seq<Hash>, binSize: nat,
                    o: Hash, drop: nat)
    requires |b.bins| == DEPTH && 0 <= k < DEPTH
    requires BinFilling(b, obs, height, k, bin, cnt, txs, binSize) && height < UNMINED
    requires o in obs && obs[o].mined == UNMINED && height - obs[o].observed - 1 == k
    requires forall i :: 0 <= i < |txs| ==> Droppable(obs, height, txs[i])
    requires |bin| == binSize && drop < binSize - (cnt + 1)
    ensures var obs' := obs[o := obs[o].(mined := height)];
      && Droppable(obs', height, bin[drop])
      && BinFilling(b, obs', height, k, Overwrite(bin, binSize - (cnt + 1), drop, o), cnt + 1, txs + [bin[drop]],
        binSize)
  {
    hide Unmarked, CountMarked, FromBin;
    var obs' := obs[o := obs[o].(mined := height)];
    var l := binSize - (cnt + 1);
    var d := bin[drop];
    var bin' := Overwrite(bin, l, drop, o);
    assert !Marked(obs, height, bin[drop]) && !Marked(obs, height, bin[l - 1]);
    MineOne(obs, height, o, bin);
    assert forall i :: 0 <= i < |txs| ==> Droppable(obs, height, txs[i]);
    MineOne(obs, height, o, txs);
    OverwriteUnmarked(obs', height, bin, l, drop, o);
    FromBinAppend(obs', txs, d, k);
    OverwriteBinOk(obs, height, k, bin, l, drop, o);
    var f := FromBin(obs', txs, k);
    assert multiset(f + [d]) == multiset(f) + multiset{d};
  }

  lemma OverwriteBinOk(obs: TxMap, height: int, k: int, bin: seq<Hash>, l: nat, drop: nat, o: Hash)
    requires BinOk(obs, bin, k) && drop < l <= |bin| && height < UNMINED
    requires o in obs && obs[o].mined == UNMINED && height - obs[o].observed - 1 == k
    ensures BinOk(obs[o := obs[o].(mined := height)], Overwrite(bin, l, drop, o), k)
  {
  }

  /** The whole step for one transaction of the block */

  lemma FillOne(b: Est, obs: TxMap, height: int, bins: seq<seq<Hash>>, counts: seq<nat>, txs: seq<Hash>,
                binSize: nat, maxR: nat, o: Hash, bin': seq<Hash>, extra: seq<Hash>)
    requires Filling(b, obs, height, bins, counts, txs, binSize, maxR)
    requires o in obs && obs[o].mined == UNMINED && 0 <= height - obs[o].observed - 1 < DEPTH
    requires var k := height - obs[o].observed - 1;
      var obs' := obs[o := obs[o].(mined := height)];
      && counts[k] < maxR
      && BinFilling(b, obs', height, k, bin', counts[k] + 1, txs + extra, binSize)
      && o in bin' && (forall h :: h in bins[k] && Marked(obs, height, h) ==> h in bin')
    requires |extra| <= 1
    requires extra != [] ==> Droppable(obs, height, extra[0]) && BinOf(obs[extra[0]]) == height - obs[o].observed - 1
    ensures var k := height - obs[o].observed - 1;
      Filling(b, obs[o := obs[o].(mined := height)], height, bins[k := bin'], counts[k := counts[k] + 1],
        txs + extra, binSize, maxR)
  {
    hide BinFilling;
    var k := height - obs[o].observed - 1;
    var obs' := obs[o := obs[o].(mined := height)];
    forall j | 0 <= j < DEPTH && j != k
      ensures BinFilling(b, obs', height, j, bins[j], counts[j], txs + extra, binSize)
    {
      FillingOther(b, obs, height, j, bins[j], counts[j], txs, binSize, o, extra);
    }
    FillMarks(b, obs, height, bins, o, bin');
    forall i | 0 <= i < |txs + extra| ensures Droppable(obs', height, (txs + extra)[i]) {
      assert i < |txs| ==> Droppable(obs, height, txs[i]);
    }
  }

  lemma FillMarks(b: Est, obs: TxMap, height: int, bins: seq<seq<Hash>>, o: Hash, bin': seq<Hash>)
    requires MarksFilling(b, obs, height, bins)
    requires o in obs && obs[o].mined == UNMINED && 0 <= height - obs[o].observed - 1 < DEPTH
    requires o in bin' && forall h :: h in bins[height - obs[o].observed - 1] && Marked(obs, height, h) ==> h in bin'
    ensures MarksFilling(b, obs[o := obs[o].(mined := height)], height, bins[height - obs[o].observed - 1 := bin'])
  {
  }

  // Put one mined transaction into its bin, over a random older one when the bin is full.
  method PutInBin(ghost b: Est, ghost obs: TxMap, ghost height: int, ghost k: int, bin: seq<Hash>, cnt: nat,
                  ghost txs: seq<Hash>, binSize: nat, o: Hash)
    returns (bin': seq<Hash>, extra: seq<Hash>)
    requires |b.bins| == DEPTH && 0 <= k < DEPTH && cnt + 1 < binSize && height < UNMINED
    requires BinFilling(b, obs, height, k, bin, cnt, txs, binSize)
    requires o in obs && obs[o].mined == UNMINED && height - obs[o].observed - 1 == k
    requires forall i :: 0 <= i < |txs| ==> Droppable(obs, height, txs[i])
    ensures |extra| <= 1
    ensures extra != [] ==> Droppable(obs, height, extra[0]) && BinOf(obs[extra[0]]) == k
    ensures BinFilling(b, obs[o := obs[o].(mined := height)], height, k, bin', cnt + 1, txs + extra, binSize)
    ensures o in bin' && forall h :: h in bin && Marked(obs, height, h) ==> h in bin'
  {
    hide Unmarked, CountMarked, FromBin;
    if |bin| == binSize {
      var l := binSize - (cnt + 1);
      var drop: nat :| drop < l;
      FillingDrop(b, obs, height, k, bin, cnt, txs, binSize, o, drop);
      extra := [bin[drop]];
      bin' := bin[drop := bin[l - 1]][l - 1 := o];
      OverwriteKeeps(bin, l, drop, o);
      assert !Marked(obs, height, bin[drop]);
    } else {
      FillingAppend(b, obs, height, k, bin, cnt, txs, binSize, o);
      bin', extra := bin + [o], [];
      assert txs + extra == txs;
    }
  }

  lemma OverwriteKeeps(bin: seq<Hash>, l: nat, drop: nat, o: Hash)
    requires drop < l <= |bin|
    ensures var bin' := Overwrite(bin, l, drop, o);
      o in bin' && forall h :: h in bin && h != bin[drop] ==> h in bin'
  {
    var bin' := Overwrite(bin, l, drop, o);
    assert bin'[l - 1] == o;
    forall h | h in bin && h != bin[drop] ensures h in bin' {
      var i :| 0 <= i < |bin| && bin[i] == h;
      assert i != l - 1 ==> bin'[i] == h;
      assert i == l - 1 ==> drop != l - 1 && bin'[drop] == h;
    }
  }

  // The block's transactions are the ones marked; one is left out only when it was not
  // observed, waited too long, or came after its bin had its share of this block.
  ghost predicate Counted(obs: TxMap, height: int, bins: seq<seq<Hash>>, maxR: nat, block: seq<Hash>) {
    && |bins| == DEPTH
    && (forall h :: Marked(obs, height, h) ==> h in block)
    && (forall i :: 0 <= i < |block| && block[i] in obs ==> CountedOne(obs, height, bins, maxR, block[i]))
  }

  predicate CountedOne(obs: TxMap, height: int, bins: seq<seq<Hash>>, maxR: nat, h: Hash)
    requires |bins| == DEPTH && h in obs
  {
    var k := height - obs[h].observed - 1;
    || Marked(obs, height, h)
    || (obs[h].mined == UNMINED && (k >= DEPTH || (0 <= k && CountMarked(obs, height, bins[k]) == maxR)))
  }

  predicate Refused(res: Registration) {
    res == AlreadyMined || res == BinOutOfRange
  }

  datatype Registration = Registered | WrongHeight | AlreadyMined | BinOutOfRange

  // What a caller can check beforehand: every observed transaction of the block is
  // unmined and was observed at a lower height.
  predicate Registrable(obs: TxMap, height: int, block: seq<Hash>) {
    forall i :: 0 <= i < |block| && block[i] in obs ==>
      obs[block[i]].mined == UNMINED && obs[block[i]].observed < height
  }

  // Why transaction i stops the registration: it was mined before, or it was not observed
  // below this height.  All transactions before it passed.
  ghost predicate RefusedAt(obs: TxMap, height: int, block: seq<Hash>, i: nat, res: Registration) {
    && i < |block| && Registrable(obs, height, block[..i])
    && match res
       case AlreadyMined => (block[i] in obs && obs[block[i]].mined != UNMINED) || !NoDup(block)
       case BinOutOfRange => block[i] in obs && obs[block[i]].mined == UNMINED && obs[block[i]].observed >= height
       case _ => false
  }

  lemma CountedSkip(obs: TxMap, height: int, bins: seq<seq<Hash>>, maxR: nat, block: seq<Hash>, i: nat)
    requires |bins| == DEPTH && i < |block| && Counted(obs, height, bins, maxR, block[..i])
    requires block[i] in obs ==> CountedOne(obs, height, bins, maxR, block[i])
    ensures Counted(obs, height, bins, maxR, block[..i + 1])
  {
    assert block[..i + 1] == block[..i] + [block[i]];
  }

  lemma CountedMore(b: Est, obs: TxMap, height: int, bins: seq<seq<Hash>>, counts: seq<nat>, txs: seq<Hash>,
                    binSize: nat,
                    maxR: nat, block: seq<Hash>, i: nat, bins': seq<seq<Hash>>, counts': seq<nat>, txs': seq<Hash>)
    requires Filling(b, obs, height, bins, counts, txs, binSize, maxR)
    requires i < |block| && block[i] in obs && obs[block[i]].mined == UNMINED
    requires Counted(obs, height, bins, maxR, block[..i])
    requires var k := height - obs[block[i]].observed - 1;
      0 <= k < DEPTH && counts[k] < maxR && counts' == counts[k := counts[k] + 1]
    requires Filling(b, obs[block[i] := obs[block[i]].(mined := height)], height, bins', counts', txs', binSize, maxR)
    ensures Counted(obs[block[i] := obs[block[i]].(mined := height)], height, bins', maxR, block[..i + 1])
  {
    hide CountMarked, Unmarked, FromBin, BinOk, MarksFilling, Droppable;
    assert block[..i + 1] == block[..i] + [block[i]];
    var o := block[i];
    var obs' := obs[o := obs[o].(mined := height)];
    forall h | h in block[..i + 1] && h in obs'
      ensures CountedOne(obs', height, bins', maxR, h)
    {
      if h != o {
        assert h in block[..i];
        assert CountedOne(obs, height, bins, maxR, h);
        var k := height - obs[h].observed - 1;
        if !Marked(obs, height, h) && 0 <= k < DEPTH {
          assert BinFilling(b, obs, height, k, bins[k], counts[k], txs, binSize);
          assert BinFilling(b, obs', height, k, bins'[k], counts'[k], txs', binSize);
        }
      }
    }
    forall h | Marked(obs', height, h) ensures h in block[..i + 1] {
      assert h != o ==> Marked(obs, height, h);
    }
  }

  lemma CountedLeft(obs: TxMap, height: int, bins: seq<seq<Hash>>, maxR: nat, h: Hash)
    requires |bins| == DEPTH && h in obs && obs[h].mined == UNMINED
    requires var k := height - obs[h].observed - 1;
      k >= DEPTH || (0 <= k && CountMarked(obs, height, bins[k]) == maxR)
    ensures CountedOne(obs, height, bins, maxR, h)
  {
  }

  lemma NothingMarked(b: Est, height: int, binSize: nat)
    requires StateOk(b, binSize) && b.height == height - 1 && height < UNMINED
    ensures forall h :: !Marked(b.observed, height, h)
  {
  }

  lemma FillingStart(b: Est, height: int, binSize: nat, maxR: nat)
    requires StateOk(b, binSize) && b.height == height - 1 && height < UNMINED
    ensures Filling(b, b.observed, height, b.bins, seq(DEPTH, _ => 0), [], binSize, maxR)
  {
    hide Unmarked, CountMarked, FromBin, BinOk;
    NothingMarked(b, height, binSize);
    forall k | 0 <= k < DEPTH ensures BinFilling(b, b.observed, height, k, b.bins[k], 0, [], binSize) {
      NoneMarked(b.observed, height, b.bins[k]);
      FromBinNone(b.observed, k);
    }
  }

  lemma CountedStart(b: Est, height: int, maxR: nat, binSize: nat)
    requires StateOk(b, binSize) && b.height == height - 1 && height < UNMINED
    ensures Counted(b.observed, height, b.bins, maxR, [])
  {
    NothingMarked(b, height, binSize);
  }

  lemma FillingLengths(b: Est, obs: TxMap, height: int, bins: seq<seq<Hash>>, counts: seq<nat>, txs: seq<Hash>,
                       binSize: nat, maxR: nat)
    requires Filling(b, obs, height, bins, counts, txs, binSize, maxR)
    ensures |bins| == |counts| == |b.bins| == DEPTH
    ensures forall k :: 0 <= k < DEPTH ==> counts[k] <= maxR
    ensures forall k :: 0 <= k < DEPTH ==> BinFilling(b, obs, height, k, bins[k], counts[k], txs, binSize)
    ensures forall i :: 0 <= i < |txs| ==> Droppable(obs, height, txs[i])
  {
    hide BinFilling, Droppable, MarksFilling;
  }

  lemma FillingCount(b: Est, obs: TxMap, height: int, bins: seq<seq<Hash>>, counts: seq<nat>, txs: seq<Hash>,
                     binSize: nat, maxR: nat, k: int)
    requires Filling(b, obs, height, bins, counts, txs, binSize, maxR) && 0 <= k < DEPTH
    ensures CountMarked(obs, height, bins[k]) == counts[k]
  {
    hide BinOk, MarksFilling, Unmarked, CountMarked, FromBin;
    assert BinFilling(b, obs, height, k, bins[k], counts[k], txs, binSize);
  }

  lemma FillingMarks(b: Est, obs: TxMap, height: int, bins: seq<seq<Hash>>, counts: seq<nat>, txs: seq<Hash>,
                     binSize: nat, maxR: nat)
    requires Filling(b, obs, height, bins, counts, txs, binSize, maxR)
    ensures MarksFilling(b, obs, height, bins)
  {
    hide MarksFilling, BinFilling, Droppable;
  }

  // What the current record of the next transaction says about the one before the block.
  lemma FillingRecord(b: Est, obs: TxMap, height: int, bins: seq<seq<Hash>>, counts: seq<nat>, txs: seq<Hash>,
                      binSize: nat, maxR: nat, block: seq<Hash>, i: nat)
    requires Filling(b, obs, height, bins, counts, txs, binSize, maxR) && i < |block|
    requires Counted(obs, height, bins, maxR, block[..i])
    ensures block[i] in obs <==> block[i] in b.observed
    ensures block[i] in obs ==>
      && obs[block[i]].observed == b.observed[block[i]].observed
      && (obs[block[i]].mined == UNMINED ==> b.observed[block[i]].mined == UNMINED)
      && (obs[block[i]].mined != UNMINED ==> b.observed[block[i]].mined != UNMINED || !NoDup(block))
  {
    hide BinFilling, Droppable, CountedOne;
    var h := block[i];
    if Marked(obs, height, h) {
      assert h in block[..i];
    }
  }

  // One transaction of the block.
  method FillNext(ghost b: Est, observed: TxMap, height: int, bins: seq<seq<Hash>>, counts: seq<nat>, txs: seq<Hash>,
                  ghost block: seq<Hash>, ghost i: nat, o: Hash, binSize: nat, maxR: nat)
    returns (res: Registration, obs': TxMap, bins': seq<seq<Hash>>, counts': seq<nat>, txs': seq<Hash>)
    requires maxR < binSize && height < UNMINED && i < |block| && o == block[i]
    requires Filling(b, observed, height, bins, counts, txs, binSize, maxR)
    requires Counted(observed, height, bins, maxR, block[..i])
    ensures Filling(b, obs', height, bins', counts', txs', binSize, maxR)
    ensures res == Registered ==> Counted(obs', height, bins', maxR, block[..i + 1])
    ensures res == AlreadyMined <==> o in observed && observed[o].mined != UNMINED
    ensures res == BinOutOfRange <==> o in observed && observed[o].mined == UNMINED && observed[o].observed >= height
    ensures res != WrongHeight
  {
    hide Filling, Counted, CountedOne, BinFilling, Droppable, CountMarked;
    res, obs', bins', counts', txs' := Registered, observed, bins, counts, txs;
    FillingLengths(b, observed, height, bins, counts, txs, binSize, maxR);
    if o !in observed {
      CountedSkip(observed, height, bins, maxR, block, i);
      return;
    }
    var k := height - observed[o].observed - 1;
    if observed[o].mined != UNMINED { res := AlreadyMined; return; }
    if k < 0 { res := BinOutOfRange; return; }
    if k >= DEPTH || counts[k] == maxR {
      if k < DEPTH { FillingCount(b, observed, height, bins, counts, txs, binSize, maxR, k); }
      CountedLeft(observed, height, bins, maxR, o);
      CountedSkip(observed, height, bins, maxR, block, i);
      return;
    }
    var bin, extra := PutInBin(b, observed, height, k, bins[k], counts[k], txs, binSize, o);
    FillOne(b, observed, height, bins, counts, txs, binSize, maxR, o, bin, extra);
    obs' := observed[o := observed[o].(mined := height)];
    bins', counts', txs' := bins[k := bin], counts[k := counts[k] + 1], txs + extra;
    CountedMore(b, observed, height, bins, counts, txs, binSize, maxR, block, i, bins', counts', txs');
  }

  // The loop over the block's transactions.
  method FillBins(ghost b: Est, observed: TxMap, height: int, bins: seq<seq<Hash>>, block: seq<Hash>, binSize: nat,
                  maxR: nat)
    returns (res: Registration, obs: TxMap, bins': seq<seq<Hash>>, counts: seq<nat>, txs: seq<Hash>)
    requires maxR < binSize && StateOk(b, binSize) && b.observed == observed && b.bins == bins
    requires b.height == height - 1 && height < UNMINED
    ensures res == Registered || Refused(res)
    ensures Filling(b, obs, height, bins', counts, txs, binSize, maxR)
    ensures res == Registered ==> Counted(obs, height, bins', maxR, block) && Registrable(observed, height, block)
    ensures res != Registered ==> exists i :: RefusedAt(observed, height, block, i, res)
    ensures Registrable(observed, height, block) && NoDup(block) ==> res == Registered
  {
    hide Filling, Counted, StateOk, NoDup;
    res, obs, bins', txs := Registered, observed, bins, [];
    counts := seq(DEPTH, _ => 0);
    FillingStart(b, height, binSize, maxR);
    CountedStart(b, height, maxR, binSize);
    assert block[..0] == [];
    for i := 0 to |block|
      invariant res == Registered && Filling(b, obs, height, bins', counts, txs, binSize, maxR)
      invariant Counted(obs, height, bins', maxR, block[..i])
      invariant forall j :: 0 <= j < i && block[j] in observed ==>
                  observed[block[j]].mined == UNMINED && observed[block[j]].observed < height
    {
      FillingRecord(b, obs, height, bins', counts, txs, binSize, maxR, block, i);
      res, obs, bins', counts, txs := FillNext(b, obs, height, bins', counts, txs, block, i, block[i], binSize, maxR);
      if res != Registered {
        assert RefusedAt(observed, height, block, i, res);
        return;
      }
    }
    assert block[..|block|] == block;
  }

  /** The age sweep */

  predicate TooOld(o: ObservedTx, height: int) {
    o.mined == UNMINED && height - o.observed >= DEPTH
  }

  method Sweep(observed: TxMap, height: int) returns (obs: TxMap)
    ensures obs == map h | h in observed && !TooOld(observed[h], height) :: observed[h]
    ensures forall h :: h in obs <==>
      h in observed && (observed[h].mined != UNMINED || height - observed[h].observed < 25)
  {
    obs := observed;
    var todo := observed.Keys;
    while todo != {}
      invariant todo <= observed.Keys && obs.Keys <= observed.Keys
      invariant forall h :: h in obs ==> obs[h] == observed[h]
      invariant forall h :: h in todo ==> h in obs
      invariant forall h :: h in observed && h !in todo ==> (h in obs <==> !TooOld(observed[h], height))
      decreases todo
    {
      var h :| h in todo;
      if TooOld(observed[h], height) { obs := obs - {h}; }
      todo := todo - {h};
    }
  }

  lemma SweptSame(obs: TxMap, height: int, s: seq<Hash>)
    requires forall i :: 0 <= i < |s| ==> s[i] in obs && obs[s[i]].mined != UNMINED
    ensures var obs' := map h | h in obs && !TooOld(obs[h], height) :: obs[h];
      && Unmarked(obs', height, s) == Unmarked(obs, height, s)
      && CountMarked(obs', height, s) == CountMarked(obs, height, s)
      && forall k :: FromBin(obs', s, k) == FromBin(obs, s, k)
  {
    var obs' := map h | h in obs && !TooOld(obs[h], height) :: obs[h];
    UnmarkedSame(obs, obs', height, s);
    forall k ensures FromBin(obs', s, k) == FromBin(obs, s, k) {
      FromBinSame(obs, obs', s, k);
    }
  }

  lemma FilledUndoable(b: Est, obs: TxMap, height: int, bins: seq<seq<Hash>>, counts: seq<nat>, txs: seq<Hash>,
                       binSize: nat, maxR: nat, a: Est, top: int)
    requires StateOk(b, binSize) && b.height == height - 1 && height <= top
    requires Filling(b, obs, height, bins, counts, txs, binSize, maxR)
    requires a == Est(map h | h in obs && !TooOld(obs[h], height) :: obs[h], bins, height, b.numBlocks + 1)
    ensures Undoable(b, a, txs, top) && StateOk(a, binSize)
  {
    hide Unmarked, CountMarked, FromBin;
    forall k | 0 <= k < DEPTH ensures BinUndoable(b, a, txs, k) && BinOk(a.observed, bins[k], k)
      && |bins[k]| <= binSize {
      assert BinFilling(b, obs, height, k, bins[k], counts[k], txs, binSize);
      assert forall i :: 0 <= i < |txs| ==> Droppable(obs, height, txs[i]);
      SweptSame(obs, height, bins[k]);
      SweptSame(obs, height, txs);
    }
    forall h ensures Traces(b.observed, a.observed, height, h, top) {
    }
    forall i | 0 <= i < |txs| ensures Droppable(a.observed, height, txs[i]) {
      assert Droppable(obs, height, txs[i]);
    }
  }

  // What a registration says of each record, in plain terms.
  lemma RegisteredFacts(b: Est, all: TxMap, height: int, bins: seq<seq<Hash>>, maxR: nat, block: seq<Hash>,
                        obs: TxMap)
    requires MarksFilling(b, all, height, bins) && Counted(all, height, bins, maxR, block)
    requires obs == map h | h in all && !TooOld(all[h], height) :: all[h]
    requires Registrable(b.observed, height, block)
    requires forall h :: !Marked(b.observed, height, h)
    ensures |bins| == DEPTH
    ensures forall h :: h in b.observed && h !in obs ==>
      b.observed[h].mined == UNMINED && height - b.observed[h].observed >= DEPTH
    ensures forall h :: h in obs && obs[h].mined == UNMINED ==> height - obs[h].observed < DEPTH
    ensures forall h :: h in obs ==>
      h in b.observed && (obs[h] == b.observed[h]
                          || (h in block && b.observed[h].mined == UNMINED
                            && obs[h] == b.observed[h].(mined := height)))
    ensures forall i :: 0 <= i < |block| && block[i] in b.observed ==>
      var k := height - b.observed[block[i]].observed - 1;
      k >= 0 && (k < DEPTH ==>
        || (block[i] in obs && obs[block[i]].mined == height && block[i] in bins[k])
        || CountMarked(obs, height, bins[k]) == maxR)
  {
    hide CountMarked;
    forall h | h in all
      ensures all[h] == b.observed[h]
              || (h in block && b.observed[h].mined == UNMINED && all[h] == b.observed[h].(mined := height))
    {
      if Marked(all, height, h) {
        assert h in block;
      }
    }
    forall i | 0 <= i < |block| && block[i] in b.observed
      ensures var k := height - b.observed[block[i]].observed - 1;
        k >= 0 && (k < DEPTH ==>
          || (block[i] in obs && obs[block[i]].mined == height && block[i] in bins[k])
          || CountMarked(obs, height, bins[k]) == maxR)
    {
      RegisteredOne(b, all, height, bins, maxR, block, obs, i);
    }
  }

  lemma RegisteredOne(b: Est, all: TxMap, height: int, bins: seq<seq<Hash>>, maxR: nat, block: seq<Hash>,
                      obs: TxMap, i: nat)
    requires MarksFilling(b, all, height, bins) && Counted(all, height, bins, maxR, block)
    requires obs == map h | h in all && !TooOld(all[h], height) :: all[h]
    requires Registrable(b.observed, height, block)
    requires i < |block| && block[i] in b.observed
    ensures |bins| == DEPTH
    ensures var k := height - b.observed[block[i]].observed - 1;
      k >= 0 && (k < DEPTH ==>
        || (block[i] in obs && obs[block[i]].mined == height && block[i] in bins[k])
        || CountMarked(obs, height, bins[k]) == maxR)
  {
    hide CountMarked;
    var h := block[i];
    var k := height - b.observed[h].observed - 1;
    assert h in all && CountedOne(all, height, bins, maxR, h);
    assert b.observed[h] == Unmark(height, all[h]);
    if Marked(all, height, h) {
      assert BinOf(all[h]) == k && h in bins[k] && h in obs;
    } else if k < DEPTH {
      SweptCount(all, obs, height, bins[k]);
    }
  }

  // Sweeping leaves the count of this block's transactions in a bin.
  lemma {:induction false} SweptCount(all: TxMap, obs: TxMap, height: int, s: seq<Hash>)
    requires height < UNMINED
    requires forall h :: h in obs ==> h in all && obs[h] == all[h]
    requires forall h :: h in all && h !in obs ==> all[h].mined == UNMINED
    ensures CountMarked(obs, height, s) == CountMarked(all, height, s)
  {
    if s != [] {
      SweptCount(all, obs, height, s[1..]);
    }
  }

  // The block's transactions, then the sweep.
  method FillAndSweep(ghost b: Est, observed: TxMap, height: int, bins: seq<seq<Hash>>, block: seq<Hash>, binSize: nat,
                      maxR: nat)
    returns (res: Registration, obs: TxMap, bins': seq<seq<Hash>>, txs: seq<Hash>, ghost all: TxMap,
             ghost counts: seq<nat>)
    requires maxR < binSize && StateOk(b, binSize) && b.observed == observed && b.bins == bins
    requires b.height == height - 1 && height < UNMINED
    ensures res == Registered || Refused(res)
    ensures Registrable(observed, height, block) && NoDup(block) ==> res == Registered
    ensures res != Registered ==>
      && Filling(b, obs, height, bins', counts, txs, binSize, maxR)
      && exists i :: RefusedAt(observed, height, block, i, res)
    ensures res == Registered ==>
      && Undoable(b, Est(obs, bins', height, b.numBlocks + 1), txs, height)
      && StateOk(Est(obs, bins', height, b.numBlocks + 1), binSize)
      && MarksFilling(b, all, height, bins') && Counted(all, height, bins', maxR, block)
      && obs == (map h | h in all && !TooOld(all[h], height) :: all[h])
      && Registrable(observed, height, block)
    ensures res == Registered ==> forall h :: h in observed && h !in obs ==>
      observed[h].mined == UNMINED && height - observed[h].observed >= DEPTH
    ensures res == Registered ==> forall h :: h in obs ==>
      && h in observed && (obs[h].mined == UNMINED ==> height - obs[h].observed < DEPTH)
      && (obs[h] == observed[h]
          || (h in block && observed[h].mined == UNMINED && obs[h] == observed[h].(mined := height)))
    ensures res == Registered ==> |bins'| == DEPTH && forall i :: 0 <= i < |block| && block[i] in observed ==>
      var k := height - observed[block[i]].observed - 1;
      k >= 0 && (k < DEPTH ==>
        || (block[i] in obs && obs[block[i]].mined == height && block[i] in bins'[k])
        || CountMarked(obs, height, bins'[k]) == maxR)
  {
    hide Filling, MarksFilling, RefusedAt, Counted, Undoable, StateOk, Registrable, NoDup, TooOld, CountMarked,
         CountedOne;
    res, obs, bins', counts, txs := FillBins(b, observed, height, bins, block, binSize, maxR);
    all := obs;
    if res == Registered {
      obs := Sweep(obs, height);
      FilledUndoable(b, all, height, bins', counts, txs, binSize, maxR, Est(obs, bins', height, b.numBlocks + 1),
        height);
      FillingMarks(b, all, height, bins', counts, txs, binSize, maxR);
      NothingMarked(b, height, binSize);
      RegisteredFacts(b, all, height, bins', maxR, block, obs);
    }
  }

  /** Whole histories */

  // hist[i] is the state before the i-th recorded block: each record leads back from the
  // state after it.
  ghost predicate Chained(hist: seq<Est>, cur: Est, dropped: seq<RegisteredBlock>, top: int, binSize: nat) {
    && |hist| == |dropped|
    && (forall i :: 0 <= i < |hist| ==> StateOk(hist[i], binSize))
    && (forall i :: 0 <= i < |hist| ==> Undoable(hist[i], (hist + [cur])[i + 1], dropped[i].txs, top))
  }

  lemma UndoableLater(b: Est, a: Est, txs: seq<Hash>, top: int, top': int)
    requires Undoable(b, a, txs, top) && top <= top'
    ensures Undoable(b, a, txs, top')
  {
    hide BinUndoable, Droppable, BinOk;
    forall h ensures Traces(b.observed, a.observed, a.height, h, top') {
      assert Traces(b.observed, a.observed, a.height, h, top);
    }
  }

  lemma ChainedPush(hist: seq<Est>, cur: Est, dropped: seq<RegisteredBlock>, top: int, binSize: nat,
                    b: Est, a: Est, rec: RegisteredBlock, top': int)
    requires Chained(hist, cur, dropped, top, binSize) && StateOk(b, binSize) && top <= top'
    requires hist == [] || b == cur
    requires Undoable(b, a, rec.txs, top')
    ensures Chained(hist + [b], a, dropped + [rec], top', binSize)
  {
    hide Undoable, StateOk;
    var hist', dropped' := hist + [b], dropped + [rec];
    forall i | 0 <= i < |hist'|
      ensures Undoable(hist'[i], (hist' + [a])[i + 1], dropped'[i].txs, top')
    {
      if i < |hist| {
        assert Undoable(hist[i], (hist + [cur])[i + 1], dropped[i].txs, top);
        UndoableLater(hist[i], (hist + [cur])[i + 1], dropped[i].txs, top, top');
        assert (hist' + [a])[i + 1] == (hist + [cur])[i + 1];
      }
    }
  }

  lemma ChainedForget(hist: seq<Est>, cur: Est, dropped: seq<RegisteredBlock>, top: int, binSize: nat)
    requires Chained(hist, cur, dropped, top, binSize) && hist != []
    ensures Chained(hist[1..], cur, dropped[1..], top, binSize)
  {
    hide Undoable, StateOk;
    forall i | 0 <= i < |hist[1..]|
      ensures Undoable(hist[1..][i], (hist[1..] + [cur])[i + 1], dropped[1..][i].txs, top)
    {
      assert (hist[1..] + [cur])[i + 1] == (hist + [cur])[i + 2];
    }
  }

  lemma ChainedPop(hist: seq<Est>, cur: Est, dropped: seq<RegisteredBlock>, top: int, binSize: nat, r: Est)
    requires Chained(hist, cur, dropped, top, binSize) && hist != []
    requires Restored(hist[|hist| - 1], r, top)
    ensures Chained(hist[..|hist| - 1], r, dropped[..|hist| - 1], top, binSize)
    ensures StateOk(r, binSize)
  {
    var n := |hist| - 1;
    assert StateOk(hist[n], binSize) && Undoable(hist[n], (hist + [cur])[n + 1], dropped[n].txs, top);
    RestoredOk(hist[n], r, top, binSize, (hist + [cur])[n + 1], dropped[n].txs);
    hide Undoable, StateOk, Restored;
    forall i | 0 <= i < n
      ensures Undoable(hist[..n][i], (hist[..n] + [r])[i + 1], dropped[..n][i].txs, top)
    {
      assert Undoable(hist[i], (hist + [cur])[i + 1], dropped[i].txs, top);
      if i == n - 1 {
        assert (hist + [cur])[i + 1] == hist[n];
        ChainedOk(hist[n], binSize);
        RestoredUndoable(hist[i], hist[n], dropped[i].txs, r, top);
      }
    }
  }

  lemma ChainedOk(s: Est, binSize: nat)
    requires StateOk(s, binSize)
    ensures BinsOk(s.observed, s.bins)
  {
  }

  lemma RestoredOk(b: Est, r: Est, top: int, binSize: nat, a: Est, txs: seq<Hash>)
    requires StateOk(b, binSize) && Undoable(b, a, txs, top) && Restored(b, r, top)
    ensures StateOk(r, binSize)
  {
    hide BinOk, BinUndoable, Droppable, MarksUndoable;
    forall h | h in b.observed && b.observed[h].mined != UNMINED
      ensures h in r.observed && r.observed[h] == b.observed[h]
    {
      assert Traces(b.observed, r.observed, UNMINED, h, top);
    }
    forall k | 0 <= k < DEPTH ensures BinOk(r.observed, r.bins[k], k) && |r.bins[k]| <= binSize {
      PermutedBinOk(b.observed, r.observed, b.bins[k], r.bins[k], k);
      assert |multiset(r.bins[k])| == |r.bins[k]| && |multiset(b.bins[k])| == |b.bins[k]|;
    }
    forall h | h in r.observed && r.observed[h].mined != UNMINED ensures r.observed[h].mined <= r.height {
      assert Traces(b.observed, r.observed, UNMINED, h, top);
    }
  }

  // Observing one more transaction leaves every undo record usable.
  lemma ObserveUndoable(b: Est, a: Est, txs: seq<Hash>, top: int, h: Hash, at: int)
    requires Undoable(b, a, txs, top) && h !in a.observed
    ensures Undoable(b, a.(observed := a.observed[h := ObservedTx(at, UNMINED)]), txs, top)
  {
    hide Unmarked, CountMarked, FromBin, MayBeLost;
    var obs' := a.observed[h := ObservedTx(at, UNMINED)];
    var a' := a.(observed := obs');
    forall k | 0 <= k < DEPTH ensures BinUndoable(b, a', txs, k) && BinOk(obs', a.bins[k], k) {
      assert BinUndoable(b, a, txs, k);
      assert BinOk(a.observed, a.bins[k], k);
      UnmarkedSame(a.observed, obs', a.height, a.bins[k]);
      assert forall i :: 0 <= i < |txs| ==> Droppable(a.observed, a.height, txs[i]);
      FromBinSame(a.observed, obs', txs, k);
    }
    forall i | 0 <= i < |txs| ensures Droppable(obs', a.height, txs[i]) {
      assert Droppable(a.observed, a.height, txs[i]);
    }
    forall g ensures Traces(b.observed, obs', a.height, g, top) {
      assert Traces(b.observed, a.observed, a.height, g, top);
    }
  }

  lemma ChainedObserve(hist: seq<Est>, cur: Est, dropped: seq<RegisteredBlock>, top: int, binSize: nat, h: Hash,
                       at: int)
    requires Chained(hist, cur, dropped, top, binSize) && h !in cur.observed
    ensures Chained(hist, cur.(observed := cur.observed[h := ObservedTx(at, UNMINED)]), dropped, top, binSize)
  {
    hide Undoable, StateOk;
    var cur' := cur.(observed := cur.observed[h := ObservedTx(at, UNMINED)]);
    forall i | 0 <= i < |hist| ensures Undoable(hist[i], (hist + [cur'])[i + 1], dropped[i].txs, top) {
      assert Undoable(hist[i], (hist + [cur])[i + 1], dropped[i].txs, top);
      if i == |hist| - 1 {
        ObserveUndoable(hist[i], cur, dropped[i].txs, top, h, at);
      }
    }
  }

  // Where the search from the newest record back stops.
  function FindRecord(dropped: seq<RegisteredBlock>, hash: Hash): (r: Option<nat>)
    ensures r.None? ==> forall i :: 0 <= i < |dropped| ==> dropped[i].hash != hash
    ensures r.Some? ==> r.value < |dropped| && dropped[r.value].hash == hash
                        && forall i :: r.value < i < |dropped| ==> dropped[i].hash != hash
  {
    if dropped == [] then None
    else if dropped[|dropped| - 1].hash == hash then Some(|dropped| - 1)
    else FindRecord(dropped[..|dropped| - 1], hash)
  }

  // The state a registration is recorded against; before the first block the height is
  // unknown, and rolling that block back leaves the height below it.
  function Base(s: Est, height: int): Est {
    s.(height := height - 1)
  }

  // The undo log keeps its newest maxRollback records.
  function Keep<T>(s: seq<T>, x: T, maxRollback: nat): seq<T> {
    if maxRollback == 0 then s
    else if s != [] && |s| == maxRollback then s[1..] + [x] else s + [x]
  }

  // Rolling back forgets no transaction and changes nothing but mined marks.
  ghost predicate OnlyUnmarked(before: TxMap, after: TxMap) {
    && after.Keys == before.Keys
    && forall h :: h in after ==> after[h] == before[h] || after[h] == before[h].(mined := UNMINED)
  }

  lemma MinedBelow(s: Est, binSize: nat)
    requires StateOk(s, binSize)
    ensures s.height <= UNMINED
    ensures forall h :: h in s.observed ==> s.observed[h].mined == UNMINED || s.observed[h].mined <= s.height
  {
  }

  lemma ClearedOnly(a: Est, obs: TxMap, p: seq<nat>)
    requires ClearedUpTo(a, obs, p)
    ensures OnlyUnmarked(a.observed, obs)
  {
  }

  class FeeEstimator {
    const maxRollback: nat
    const binSize: nat
    const maxReplacements: nat
    var observed: TxMap
    var bins: seq<seq<Hash>>
    var dropped: seq<RegisteredBlock>
    var lastKnownHeight: int
    var numBlocksRegistered: int
    ghost var history: seq<Est>   // the states before each recorded block
    ghost var top: int            // the greatest height registered so far

    ghost function State(): Est
      reads this
    {
      Est(observed, bins, lastKnownHeight, numBlocksRegistered)
    }

    ghost predicate Valid()
      reads this
    {
      && maxReplacements < binSize
      && StateOk(State(), binSize)
      && |dropped| <= maxRollback
      && (lastKnownHeight == UNMINED ==> dropped == [])
      && Chained(history, State(), dropped, top, binSize)
    }

    constructor (maxRollback: nat, binSize: nat, maxReplacements: nat)
      requires maxReplacements < binSize
      ensures Valid() && observed == map[] && dropped == [] && lastKnownHeight == UNMINED && numBlocksRegistered == 0
      ensures this.maxRollback == maxRollback && this.binSize == binSize && this.maxReplacements == maxReplacements
      ensures forall k :: 0 <= k < DEPTH ==> bins[k] == []
    {
      this.maxRollback, this.binSize, this.maxReplacements := maxRollback, binSize, maxReplacements;
      observed, dropped, lastKnownHeight, numBlocksRegistered := map[], [], UNMINED, 0;
      bins := seq(DEPTH, _ => []);
      history, top := [], 0;
    }

    method ObserveTransaction(hash: Hash, height: int)
      requires Valid()
      modifies this`observed
      ensures Valid()
      ensures observed == if old(lastKnownHeight) == UNMINED || hash in old(observed) then old(observed)
                          else old(observed)[hash := ObservedTx(height, UNMINED)]
    {
      hide Chained, BinOk;
      if lastKnownHeight == UNMINED { return; }
      if hash !in observed {
        ChainedObserve(history, State(), dropped, top, binSize, hash, height);
        ObserveOk(State(), binSize, hash, height);
        observed := observed[hash := ObservedTx(height, UNMINED)];
      }
    }

    // Any order of the block's transactions: block may be any sequence.
    method RegisterBlock(hash: Hash, height: int, block: seq<Hash>) returns (res: Registration)
      requires Valid() && height < UNMINED
      modifies this
      ensures res == WrongHeight <==> old(lastKnownHeight) != UNMINED && height != old(lastKnownHeight) + 1
      ensures res == WrongHeight ==>
        Valid() && State() == old(State()) && dropped == old(dropped) && history == old(history)
      ensures res == Registered ==> Valid()
      ensures res == Registered ==> lastKnownHeight == height && numBlocksRegistered == old(numBlocksRegistered) + 1
      ensures res == Registered ==> history == Keep(old(history), Base(old(State()), height), maxRollback)
      ensures res == Registered ==> exists txs ::
                && dropped == Keep(old(dropped), RegisteredBlock(hash, txs), maxRollback)
                && Undoable(Base(old(State()), height), State(), txs, height)
      ensures res == Registered ==> exists all ::
                && MarksFilling(Base(old(State()), height), all, height, bins)
                && Counted(all, height, bins, maxReplacements, block)
                && observed == map h | h in all && !TooOld(all[h], height) :: all[h]
      ensures res == Registered ==> Registrable(old(observed), height, block)
      ensures res == Registered ==> forall h :: h in old(observed) && h !in observed ==>
                old(observed)[h].mined == UNMINED && height - old(observed)[h].observed >= DEPTH
      ensures res == Registered ==> forall h :: h in observed ==>
                && h in old(observed) && (observed[h].mined == UNMINED ==> height - observed[h].observed < DEPTH)
                && (observed[h] == old(observed)[h]
                    || (&& h in block && old(observed)[h].mined == UNMINED
                        && observed[h] == old(observed)[h].(mined := height)))
      ensures res == Registered ==> |bins| == DEPTH && forall i :: 0 <= i < |block| && block[i] in old(observed) ==>
                var k := height - old(observed)[block[i]].observed - 1;
                k >= 0 && (k < DEPTH ==>
                  || (block[i] in observed && observed[block[i]].mined == height && block[i] in bins[k])
                  || CountMarked(observed, height, bins[k]) == maxReplacements)
      ensures Registrable(old(observed), height, block) && NoDup(block) ==> !Refused(res)
      ensures Refused(res) ==> exists i :: RefusedAt(old(observed), height, block, i, res)
      ensures Refused(res) ==> lastKnownHeight == height && numBlocksRegistered == old(numBlocksRegistered) + 1
                               && dropped == old(dropped) && history == old(history)
      ensures Refused(res) ==> exists counts: seq<nat>, txs ::
                Filling(Base(old(State()), height), observed, height, bins, counts, txs, binSize, maxReplacements)
    {
      hide Chained, Filling, MarksFilling, RefusedAt, Counted, Undoable, StateOk, Registrable, NoDup, TooOld,
           CountMarked, CountedOne, Keep;
      if height != lastKnownHeight + 1 && lastKnownHeight != UNMINED {
        return WrongHeight;
      }
      ghost var cur := State();
      ghost var b := Base(cur, height);
      BaseOk(cur, binSize, height);
      lastKnownHeight := height;
      numBlocksRegistered := numBlocksRegistered + 1;
      var txs;
      ghost var all, counts;
      res, observed, bins, txs, all, counts := FillAndSweep(b, observed, height, bins, block, binSize, maxReplacements);
      if res != Registered {
        assert Filling(b, observed, height, bins, counts, txs, binSize, maxReplacements);
        return;
      }
      ghost var top' := if height <= top then top else height;
      UndoableLater(b, State(), txs, height, top');
      var rec := RegisteredBlock(hash, txs);
      ghost var a := State();
      LogStep(history, cur, dropped, top, binSize, maxRollback, b, a, rec, top');
      history := Keep(history, b, maxRollback);
      top := top';
      Remember(rec);
    }

    // The undo log drops its oldest record when it is full.
    method Remember(rec: RegisteredBlock)
      requires |dropped| <= maxRollback
      modifies this`dropped
      ensures dropped == Keep(old(dropped), rec, maxRollback)
    {
      if maxRollback == 0 { return; }
      if |dropped| == maxRollback {
        dropped := dropped[1..] + [rec];
      } else {
        dropped := dropped + [rec];
      }
    }

    // Undo the newest record.
    method RollbackLast()
      requires Valid() && dropped != []
      modifies this
      ensures Valid() && top == old(top)
      ensures history == old(history)[..|old(history)| - 1] && dropped == old(dropped)[..|old(dropped)| - 1]
      ensures Restored(old(history)[|old(history)| - 1], State(), top)
      ensures lastKnownHeight == old(lastKnownHeight) - 1 && numBlocksRegistered == old(numBlocksRegistered) - 1
      ensures forall h :: h in observed ==> observed[h].mined != old(lastKnownHeight)
      ensures OnlyUnmarked(old(observed), observed)
    {
      hide Undoable, StateOk, Restored;
      var last := |dropped| - 1;
      ghost var b := history[last];
      ghost var a := State();
      assert a == (history + [a])[last + 1];
      assert Undoable(history[last], (history + [a])[last + 1], dropped[last].txs, top);
      observed, bins := UndoBins(b, a, lastKnownHeight, observed, bins, dropped[last].txs, top);
      ghost var r := Est(observed, bins, lastKnownHeight - 1, numBlocksRegistered - 1);
      UndoneRestores(b, a, dropped[last].txs, top, r);
      ClearedOnly(a, observed, seq(DEPTH, k requires 0 <= k < |a.bins| => |a.bins[k]|));
      ChainedPop(history, a, dropped, top, binSize, r);
      RestoredHeight(b, a, dropped[last].txs, r, top);
      dropped := dropped[..last];
      history := history[..last];
      numBlocksRegistered := numBlocksRegistered - 1;
      lastKnownHeight := lastKnownHeight - 1;
      assert StateOk(State(), binSize);
      MinedBelow(State(), binSize);
    }

    method RollbackBlocks(n: nat)
      requires Valid() && 0 < n <= |dropped| == |history|
      modifies this
      ensures Valid() && top == old(top)
      ensures dropped == old(dropped[..|dropped| - n]) && history == old(history[..|dropped| - n])
      ensures Restored(old(history[|dropped| - n]), State(), top)
      ensures lastKnownHeight == old(lastKnownHeight) - n && numBlocksRegistered == old(numBlocksRegistered) - n
      ensures OnlyUnmarked(old(observed), observed)
    {
      hide Undoable, StateOk, Restored, Chained;
      ghost var size := |dropped|;
      for i := 0 to n
        invariant Valid() && top == old(top)
        invariant |dropped| == |history| == size - i
        invariant dropped == old(dropped[..size - i]) && history == old(history[..size - i])
        invariant i > 0 ==> Restored(old(history[size - i]), State(), top)
        invariant lastKnownHeight == old(lastKnownHeight) - i && numBlocksRegistered == old(numBlocksRegistered) - i
        invariant OnlyUnmarked(old(observed), observed)
      {
        RollbackLast();
        TakeTake(old(dropped), size - i - 1, size - i);
        TakeTake(old(history), size - i - 1, size - i);
      }
    }

    // Undo every block from the newest down to the one named.
    method Rollback(hash: Hash) returns (ok: bool)
      requires Valid()
      modifies this
      ensures Valid() && top == old(top)
      ensures ok <==> exists i :: 0 <= i < |old(dropped)| && old(dropped)[i].hash == hash
      ensures !ok ==> State() == old(State()) && dropped == old(dropped) && history == old(history)
      ensures ok ==> var n := FindRecord(old(dropped), hash).value;
                && n < |old(history)| == |old(dropped)|
                && dropped == old(dropped)[..n] && history == old(history)[..n]
                && Restored(old(history)[n], State(), top)
                && lastKnownHeight == old(lastKnownHeight) - (|old(dropped)| - n)
                && numBlocksRegistered == old(numBlocksRegistered) - (|old(dropped)| - n)
      ensures OnlyUnmarked(old(observed), observed)
    {
      hide Undoable, StateOk, Restored, FindRecord, Chained;
      ChainedLengths(history, State(), dropped, top, binSize);
      var n := 1;
      while n <= |dropped|
        invariant 1 <= n <= |dropped| + 1
        invariant forall i :: |dropped| - n < i < |dropped| ==> dropped[i].hash != hash
      {
        if dropped[|dropped| - n].hash == hash { break; }
        n := n + 1;
      }
      if n > |dropped| { return false; }
      RecordAt(dropped, hash, |dropped| - n);
      RollbackBlocks(n);
      ok := true;
    }
  }

  // Rolling the block just registered back restores the estimator.
  method RegisterThenRollback(e: FeeEstimator, hash: Hash, height: int, block: seq<Hash>) returns (res: Registration)
    requires e.Valid() && height < UNMINED && e.maxRollback > 0
    modifies e
    ensures res == Registered ==> e.Valid() && Restored(Base(old(e.State()), height), e.State(), e.top)
  {
    hide Undoable, StateOk, Restored, Chained, Counted, Registrable, NoDup, OnlyUnmarked;
    res := e.RegisterBlock(hash, height, block);
    if res == Registered {
      ChainedLengths(e.history, e.State(), e.dropped, e.top, e.binSize);
      RecordAt(e.dropped, hash, |e.dropped| - 1);
      var ok := e.Rollback(hash);
    }
  }

  // A transaction observed after a block that is then rolled back cannot be registered at
  // that height: its bin number would be -1, which is outside the source's array.
  method ObservedBeforeRollback(h: Hash) returns (res: Registration)
    ensures res == BinOutOfRange
  {
    hide Undoable, Restored, Chained, Counted, StateOk, Filling;
    var e := new FeeEstimator(2, 100, 10);
    res := e.RegisterBlock(1, 5, []);
    assert Registrable(map[], 5, []);
    assert NoDup<Hash>([]);
    e.ObserveTransaction(h, 5);
    ChainedLengths(e.history, e.State(), e.dropped, e.top, e.binSize);
    RecordAt(e.dropped, 1, 0);
    ghost var b := e.history[0];
    var ok := e.Rollback(1);
    RestoredSameHeight(b, e.State(), e.top);
    res := e.RegisterBlock(2, 5, [h]);
    assert [h][0] == h;
  }

  lemma ChainedLengths(hist: seq<Est>, cur: Est, dropped: seq<RegisteredBlock>, top: int, binSize: nat)
    requires Chained(hist, cur, dropped, top, binSize)
    ensures |hist| == |dropped|
  {
  }

  lemma RecordAt(dropped: seq<RegisteredBlock>, hash: Hash, n: nat)
    requires n < |dropped| && dropped[n].hash == hash
    requires forall i :: n < i < |dropped| ==> dropped[i].hash != hash
    ensures FindRecord(dropped, hash) == Some(n)
  {
    hide FindRecord;
    if FindRecord(dropped, hash).None? {
      assert false;
    }
  }

  lemma RestoredSameHeight(b: Est, r: Est, top: int)
    requires Restored(b, r, top)
    ensures r.height == b.height
  {
  }

  lemma RestoredHeight(b: Est, a: Est, txs: seq<Hash>, r: Est, top: int)
    requires Undoable(b, a, txs, top) && Restored(b, r, top)
    ensures r.height < UNMINED
  {
  }

  lemma ObserveOk(s: Est, binSize: nat, h: Hash, at: int)
    requires StateOk(s, binSize) && h !in s.observed && s.height != UNMINED
    ensures StateOk(s.(observed := s.observed[h := ObservedTx(at, UNMINED)]), binSize)
  {
    forall k | 0 <= k < DEPTH ensures BinOk(s.observed[h := ObservedTx(at, UNMINED)], s.bins[k], k) {
      assert BinOk(s.observed, s.bins[k], k);
    }
  }

  lemma BaseOk(s: Est, binSize: nat, height: int)
    requires StateOk(s, binSize) && height < UNMINED && (height == s.height + 1 || s.height == UNMINED)
    ensures StateOk(Base(s, height), binSize)
    ensures s.height != UNMINED ==> Base(s, height) == s
  {
  }

  lemma LogStep(hist: seq<Est>, cur: Est, dropped: seq<RegisteredBlock>, top: int, binSize: nat, maxRollback: nat,
                b: Est, a: Est, rec: RegisteredBlock, top': int)
    requires Chained(hist, cur, dropped, top, binSize) && |dropped| <= maxRollback && top <= top'
    requires StateOk(b, binSize) && (dropped == [] || b == cur) && Undoable(b, a, rec.txs, top')
    ensures Chained(Keep(hist, b, maxRollback), a, Keep(dropped, rec, maxRollback), top', binSize)
    ensures |Keep(dropped, rec, maxRollback)| <= maxRollback
  {
    hide Undoable, StateOk;
    ChainedPush(hist, cur, dropped, top, binSize, b, a, rec, top');
    if maxRollback == 0 {
    } else if |dropped| == maxRollback {
      ChainedForget(hist + [b], a, dropped + [rec], top', binSize);
      assert (hist + [b])[1..] == hist[1..] + [b];
      assert (dropped + [rec])[1..] == dropped[1..] + [rec];
    }
  }
}
