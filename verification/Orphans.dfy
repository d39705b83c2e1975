/** The orphan pool: blocks whose parent is not known yet, indexed by their own hash and
    by their parent's, and handed on when the parent arrives. */
module Orphans {
  import opened Types

  const MAX_ORPHAN_BLOCKS: nat := 100
  const HOUR: int := 3600

  datatype Orphan = Orphan(hash: Hash, expiration: int)

  type Pool = map<Hash, Orphan>
  type Index = map<Hash, seq<Orphan>>

  // A list of the index holds orphans of the pool, all with this parent, and no orphan twice.
  ghost predicate ListOk(prevOf: Hash -> Hash, pool: Pool, p: Hash, list: seq<Orphan>) {
    && list != [] && NoDup(list)
    && forall o :: o in list ==> o.hash in pool && pool[o.hash] == o && prevOf(o.hash) == p
  }

  // The index is exactly the pool arranged by parent.
  ghost predicate Indexed(prevOf: Hash -> Hash, pool: Pool, index: Index) {
    && (forall h :: h in pool ==> pool[h].hash == h && prevOf(h) in index && pool[h] in index[prevOf(h)])
    && (forall p :: p in index ==> ListOk(prevOf, pool, p, index[p]))
  }

  // The list without the orphan of this hash.
  function Without(list: seq<Orphan>, h: Hash): seq<Orphan> {
    if list == [] then []
    else if list[0].hash == h then Without(list[1..], h)
    else [list[0]] + Without(list[1..], h)
  }

  lemma {:induction false} WithoutMembers(list: seq<Orphan>, h: Hash)
    ensures forall o :: o in Without(list, h) <==> o in list && o.hash != h
  {
    if list != [] {
      WithoutMembers(list[1..], h);
      assert list == [list[0]] + list[1..];
    }
  }

  lemma {:induction false} WithoutNoDup(list: seq<Orphan>, h: Hash)
    requires NoDup(list)
    ensures NoDup(Without(list, h))
  {
    if list != [] {
      WithoutNoDup(list[1..], h);
      var r := Without(list[1..], h);
      WithoutMembers(list[1..], h);
      assert list[0] !in list[1..];
      assert list[0] !in r;
    }
  }

  lemma {:induction false} WithoutSplit(a: seq<Orphan>, b: seq<Orphan>, h: Hash)
    requires forall o :: o in a ==> o.hash != h
    ensures Without(a + b, h) == a + Without(b, h)
  {
    if a == [] {
      assert a + b == b;
    } else {
      assert (a + b)[0] == a[0] && (a + b)[1..] == a[1..] + b;
      WithoutSplit(a[1..], b, h);
      var rest := Without(b, h);
      hide Without;
      assert [a[0]] + (a[1..] + rest) == a + rest;
    }
  }

  function ListAt(index: Index, p: Hash): seq<Orphan> {
    if p in index then index[p] else []
  }

  // Put a list back, or drop its key when it has become empty.
  function SetList(index: Index, p: Hash, list: seq<Orphan>): Index {
    if list == [] then index - {p} else index[p := list]
  }

  lemma RemoveIndexed(prevOf: Hash -> Hash, pool: Pool, index: Index, h: Hash)
    requires Indexed(prevOf, pool, index)
    ensures Indexed(prevOf, pool - {h}, SetList(index, prevOf(h), Without(ListAt(index, prevOf(h)), h)))
  {
    var p := prevOf(h);
    var list := ListAt(index, p);
    var index' := SetList(index, p, Without(list, h));
    WithoutMembers(list, h);
    if p in index {
      assert ListOk(prevOf, pool, p, index[p]);
      WithoutNoDup(list, h);
    }
    forall q | q in index' ensures ListOk(prevOf, pool - {h}, q, index'[q]) {
      if q != p {
        assert ListOk(prevOf, pool, q, index[q]);
      }
    }
    forall g | g in pool - {h}
      ensures prevOf(g) in index' && pool[g] in index'[prevOf(g)]
    {
      if prevOf(g) == p {
        assert pool[g] in Without(list, h);
      }
    }
  }

  lemma AddIndexed(prevOf: Hash -> Hash, pool: Pool, index: Index, o: Orphan)
    requires Indexed(prevOf, pool, index) && o.hash !in pool
    ensures Indexed(prevOf, pool[o.hash := o], index[prevOf(o.hash) := ListAt(index, prevOf(o.hash)) + [o]])
  {
    var p := prevOf(o.hash);
    var pool', index' := pool[o.hash := o], index[p := ListAt(index, p) + [o]];
    forall q | q in index' ensures ListOk(prevOf, pool', q, index'[q]) {
      if q in index {
        assert ListOk(prevOf, pool, q, index[q]);
      }
    }
    assert o in index'[p];
  }

  /** The descendants of a block inside the pool */

  predicate DescendsWithin(prevOf: Hash -> Hash, pool: set<Hash>, root: Hash, h: Hash, steps: nat)
    decreases steps
  {
    && h in pool
    && (prevOf(h) == root || (steps > 0 && DescendsWithin(prevOf, pool, root, prevOf(h), steps - 1)))
  }

  ghost predicate Descends(prevOf: Hash -> Hash, pool: set<Hash>, root: Hash, h: Hash) {
    exists steps :: DescendsWithin(prevOf, pool, root, h, steps)
  }

  // Each block comes after its parent, starting from root.
  ghost predicate ParentFirst(prevOf: Hash -> Hash, root: Hash, handed: seq<Hash>) {
    forall i :: 0 <= i < |handed| ==> prevOf(handed[i]) == root || prevOf(handed[i]) in handed[..i]
  }

  // Nothing in the pool waits for root or for a block handed on.
  ghost predicate NoneWaiting(prevOf: Hash -> Hash, pool: set<Hash>, parents: set<Hash>) {
    forall h :: h in pool ==> prevOf(h) !in parents
  }

  lemma {:induction false} HandedDescend(prevOf: Hash -> Hash, pool: set<Hash>, root: Hash, handed: seq<Hash>, i: nat)
    requires ParentFirst(prevOf, root, handed) && (forall h :: h in handed ==> h in pool) && i < |handed|
    ensures DescendsWithin(prevOf, pool, root, handed[i], i)
    decreases i
  {
    if prevOf(handed[i]) != root {
      var j :| 0 <= j < i && handed[j] == prevOf(handed[i]);
      HandedDescend(prevOf, pool, root, handed, j);
      MoreSteps(prevOf, pool, root, handed[j], j, i - 1);
    }
  }

  lemma {:induction false} MoreSteps(prevOf: Hash -> Hash, pool: set<Hash>, root: Hash, h: Hash, m: nat, n: nat)
    requires m <= n && DescendsWithin(prevOf, pool, root, h, m)
    ensures DescendsWithin(prevOf, pool, root, h, n)
    decreases m
  {
    if prevOf(h) != root {
      MoreSteps(prevOf, pool, root, prevOf(h), m - 1, n - 1);
    }
  }

  lemma {:induction false} DescendantHanded(prevOf: Hash -> Hash, pool: set<Hash>, root: Hash, handed: seq<Hash>,
                                            h: Hash, n: nat)
    requires NoneWaiting(prevOf, pool - SetOf(handed), {root} + SetOf(handed))
    requires DescendsWithin(prevOf, pool, root, h, n)
    ensures h in handed
    decreases n
  {
    if prevOf(h) != root {
      DescendantHanded(prevOf, pool, root, handed, prevOf(h), n - 1);
    }
  }

  // Parent first and none waiting means: exactly the descendants.
  lemma ExactlyDescendants(prevOf: Hash -> Hash, pool: set<Hash>, root: Hash, handed: seq<Hash>)
    requires ParentFirst(prevOf, root, handed) && (forall h :: h in handed ==> h in pool)
    requires NoneWaiting(prevOf, pool - SetOf(handed), {root} + SetOf(handed))
    ensures forall h :: h in handed <==> Descends(prevOf, pool, root, h)
  {
    forall h ensures h in handed <==> Descends(prevOf, pool, root, h) {
      if h in handed {
        var i :| 0 <= i < |handed| && handed[i] == h;
        HandedDescend(prevOf, pool, root, handed, i);
      }
      if n: nat :| DescendsWithin(prevOf, pool, root, h, n) {
        DescendantHanded(prevOf, pool, root, handed, h, n);
      }
    }
  }

  // The orphans that have not expired.
  function Live(pool: Pool, now: int): Pool {
    map h | h in pool && !(pool[h].expiration < now) :: pool[h]
  }

  lemma LiveMembers(pool: Pool, now: int)
    ensures forall h :: h in Live(pool, now) <==> h in pool && !(pool[h].expiration < now)
    ensures forall h :: h in Live(pool, now) ==> Live(pool, now)[h] == pool[h]
  {
  }

  predicate Older(o: Option<Orphan>, pool: Pool) {
    o.Some? && forall h :: h in pool ==> o.value.expiration <= pool[h].expiration
  }

  // The orphan remembered as the oldest after a look at the live ones: the one remembered
  // before, even if it is gone, unless a live one expires earlier.
  ghost predicate IsOldest(before: Option<Orphan>, live: Pool, o: Option<Orphan>) {
    if Older(before, live) || live == map[] then o == before
    else o.Some? && o.value.hash in live && live[o.value.hash] == o.value && Older(o, live)
  }

  // The pool and the remembered oldest orphan after an arrival: the expired orphans go,
  // then the oldest if the pool is full, and the new block enters.
  ghost predicate Added(pool: Pool, oldest: Option<Orphan>, hash: Hash, now: int, evicted: Option<Orphan>,
                        pool': Pool, oldest': Option<Orphan>)
  {
    var live := Live(pool, now);
    && (evicted.Some? <==> |live| + 1 > MAX_ORPHAN_BLOCKS)
    && pool' == (live - Hashes(evicted))[hash := Orphan(hash, now + HOUR)]
    && IsOldest(oldest, live, if evicted.Some? then evicted else oldest')
    && (evicted.Some? ==> oldest' == None)
  }

  // The same in plain terms.
  lemma AddedFacts(pool: Pool, oldest: Option<Orphan>, hash: Hash, now: int, evicted: Option<Orphan>,
                   pool': Pool, oldest': Option<Orphan>)
    requires Added(pool, oldest, hash, now, evicted, pool', oldest')
    ensures hash in pool' && pool'[hash] == Orphan(hash, now + 3600)
    ensures forall h :: h in pool' && h != hash ==> h in pool && pool'[h] == pool[h] && pool'[h].expiration >= now
    ensures evicted.None? ==> forall h :: h in pool && pool[h].expiration >= now ==> h in pool'
    ensures evicted.Some? ==> forall h :: h in pool && pool[h].expiration >= now ==>
      evicted.value.expiration <= pool[h].expiration && (h in pool' || h == evicted.value.hash)
  {
    var live := Live(pool, now);
    forall h | h in pool && pool[h].expiration >= now ensures h in live && live[h] == pool[h] {
    }
  }

  // Whether adding a block leaves more than MAX_ORPHAN_BLOCKS: exactly when there were
  // more already, or the pool is full and the remembered oldest orphan is not in it.
  ghost predicate Overflows(oldest: Option<Orphan>, live: Pool) {
    || |live| > MAX_ORPHAN_BLOCKS
    || (|live| == MAX_ORPHAN_BLOCKS && Older(oldest, live) && oldest.value.hash !in live)
  }

  function Hashes(o: Option<Orphan>): set<Hash> {
    match o case None => {} case Some(x) => {x.hash}
  }

  ghost function SetOf(s: seq<Hash>): set<Hash> {
    set h | h in s
  }

  class OrphanPool {
    const prevOf: Hash -> Hash      // a block's hash fixes its parent
    var orphans: Pool
    var prevOrphans: Index
    var oldestOrphan: Option<Orphan>

    ghost predicate Valid()
      reads this
    {
      && Indexed(prevOf, orphans, prevOrphans)
      && |orphans| <= MAX_ORPHAN_BLOCKS + 1
      && (|orphans| == MAX_ORPHAN_BLOCKS + 1 ==> oldestOrphan.None?)
    }

    constructor (prevOf: Hash -> Hash)
      ensures Valid() && this.prevOf == prevOf && orphans == map[] && prevOrphans == map[] && oldestOrphan == None
    {
      this.prevOf, orphans, prevOrphans, oldestOrphan := prevOf, map[], map[], None;
    }

    // Removing an orphan the pool no longer holds changes nothing.
    method RemoveOrphanBlock(o: Orphan)
      requires Indexed(prevOf, orphans, prevOrphans)
      modifies this`orphans, this`prevOrphans
      ensures Indexed(prevOf, orphans, prevOrphans)
      ensures orphans == old(orphans) - {o.hash}
      ensures prevOrphans
        == SetList(old(prevOrphans), prevOf(o.hash), Without(ListAt(old(prevOrphans), prevOf(o.hash)), o.hash))
    {
      hide Indexed, Without;
      RemoveIndexed(prevOf, orphans, prevOrphans, o.hash);
      orphans := orphans - {o.hash};
      var p := prevOf(o.hash);
      var list := if p in prevOrphans then prevOrphans[p] else [];
      list := RemoveFromList(list, o.hash);
      prevOrphans := prevOrphans[p := list];
      if |list| == 0 {
        prevOrphans := prevOrphans - {p};
        assert prevOrphans == old(prevOrphans) - {p};
      }
    }

    // Drop the expired orphans and make sure the oldest of the others is known.
    method DropExpired(now: int)
      requires Valid()
      modifies this
      ensures Indexed(prevOf, orphans, prevOrphans) && orphans == Live(old(orphans), now)
      ensures IsOldest(old(oldestOrphan), orphans, oldestOrphan)
      ensures forall h :: h in orphans <==> h in old(orphans) && old(orphans)[h].expiration >= now
      ensures forall h :: h in orphans ==>
        oldestOrphan.Some? && oldestOrphan.value.expiration <= orphans[h].expiration
    {
      hide Indexed, Without, SetList, ListAt, Live;
      ghost var was := orphans;
      LiveMembers(was, now);
      IndexedHashes(prevOf, orphans, prevOrphans);
      var todo := orphans.Keys;
      while todo != {}
        invariant todo <= orphans.Keys <= was.Keys && Indexed(prevOf, orphans, prevOrphans)
        invariant forall h :: h in orphans ==> orphans[h] == was[h] && was[h].hash == h
        invariant forall h :: h in was && h !in todo ==> (h in orphans <==> !(was[h].expiration < now))
        invariant forall h :: h in orphans && h !in todo ==>
                    oldestOrphan.Some? && oldestOrphan.value.expiration <= was[h].expiration
        invariant oldestOrphan == old(oldestOrphan)
                  || (&& oldestOrphan.Some? && oldestOrphan.value.hash in orphans && oldestOrphan.value.hash !in todo
                      && orphans[oldestOrphan.value.hash] == oldestOrphan.value)
        invariant Older(old(oldestOrphan), Live(was, now)) ==> oldestOrphan == old(oldestOrphan)
        decreases todo
      {
        var h :| h in todo;
        todo := todo - {h};
        var o := orphans[h];
        if o.expiration < now {
          RemoveOrphanBlock(o);
          continue;
        }
        if oldestOrphan.None? || o.expiration < oldestOrphan.value.expiration {
          assert h in Live(was, now);
          oldestOrphan := Some(o);
        }
      }
      assert orphans == Live(was, now);
    }

    // Into the pool, and at the end of its parent's list.
    method InsertOrphan(o: Orphan)
      requires Indexed(prevOf, orphans, prevOrphans) && o.hash !in orphans
      modifies this`orphans, this`prevOrphans
      ensures Indexed(prevOf, orphans, prevOrphans)
      ensures orphans == old(orphans)[o.hash := o]
      ensures prevOrphans
        == SetList(old(prevOrphans), prevOf(o.hash), ListAt(old(prevOrphans), prevOf(o.hash)) + [o])
    {
      hide Indexed;
      AddIndexed(prevOf, orphans, prevOrphans, o);
      orphans := orphans[o.hash := o];
      var p := prevOf(o.hash);
      prevOrphans := prevOrphans[p := (if p in prevOrphans then prevOrphans[p] else []) + [o]];
    }

    // The clock is read once per call.
    method AddOrphanBlock(hash: Hash, now: int) returns (ghost evicted: Option<Orphan>)
      requires Valid() && hash !in orphans
      modifies this
      ensures Valid()
      ensures Added(old(orphans), old(oldestOrphan), hash, now, evicted, orphans, oldestOrphan)
      ensures |orphans| > MAX_ORPHAN_BLOCKS <==> Overflows(old(oldestOrphan), Live(old(orphans), now))
      ensures hash in orphans && orphans[hash] == Orphan(hash, now + 3600)
      ensures forall h :: h in orphans && h != hash ==>
        h in old(orphans) && orphans[h] == old(orphans)[h] && orphans[h].expiration >= now
      ensures evicted.None? ==> forall h :: h in old(orphans) && old(orphans)[h].expiration >= now ==> h in orphans
      ensures evicted.Some? ==> forall h :: h in old(orphans) && old(orphans)[h].expiration >= now ==>
        evicted.value.expiration <= old(orphans)[h].expiration && (h in orphans || h == evicted.value.hash)
    {
      hide Indexed, IsOldest, Without, Overflows, Added, Live, Hashes;
      DropExpired(now);
      ghost var live := orphans;
      LiveSmaller(old(orphans), now);
      evicted := None;
      ghost var found := oldestOrphan;
      NothingEvicted(live);
      if |orphans| + 1 > MAX_ORPHAN_BLOCKS {
        OldestExists(old(oldestOrphan), live, oldestOrphan);
        evicted := oldestOrphan;
        OneEvicted(live, oldestOrphan);
        RemoveOrphanBlock(oldestOrphan.value);
        oldestOrphan := None;
      }
      SizeAfter(old(oldestOrphan), live, evicted);
      var o := Orphan(hash, now + HOUR);
      SizeOfAdding(orphans, o);
      InsertOrphan(o);
      IsAdded(old(orphans), old(oldestOrphan), hash, now, found, evicted, orphans, oldestOrphan);
      AddedFacts(old(orphans), old(oldestOrphan), hash, now, evicted, orphans, oldestOrphan);
    }

    // The orphans waiting for parent, one after another.
    method ProcessChildren(parent: Hash, accepts: Hash -> bool, ghost root: Hash, ghost was: Pool,
                           ghost before: seq<Hash>)
      returns (ok: bool, more: seq<Hash>)
      requires Indexed(prevOf, orphans, prevOrphans) && Progress(prevOf, root, was, orphans, before)
      requires parent == root || parent in before
      modifies this`orphans, this`prevOrphans
      ensures Indexed(prevOf, orphans, prevOrphans) && Progress(prevOf, root, was, orphans, before + more)
      ensures orphans.Keys <= old(orphans).Keys
      ensures if more == [] then orphans == old(orphans) else |orphans| < |old(orphans)|
      ensures ok ==> AllTaken(accepts, more) && NoneWaiting(prevOf, orphans.Keys, {parent})
      ensures !ok ==> StoppedAtLast(accepts, more)
    {
      hide Indexed, Progress, NoneWaiting, AllTaken, StoppedAtLast, Without, SetList, ListAt;
      more := [];
      SeenStart(root, accepts);
      assert before + [] == before;
      while parent in prevOrphans
        invariant Indexed(prevOf, orphans, prevOrphans) && Progress(prevOf, root, was, orphans, before + more)
        invariant orphans.Keys <= old(orphans).Keys && AllTaken(accepts, more)
        invariant if more == [] then orphans == old(orphans) else |orphans| < |old(orphans)|
        decreases |orphans|
      {
        ListHead(prevOf, orphans, prevOrphans, parent);
        var orphan := prevOrphans[parent][0];
        SizeOfRemoval(orphans, orphan.hash);
        ProgressStep(prevOf, root, was, orphans, before + more, orphan.hash);
        RemoveOrphanBlock(orphan);
        assert before + more + [orphan.hash] == before + (more + [orphan.hash]);
        TakenNext(accepts, more, orphan.hash);
        more := more + [orphan.hash];
        if !accepts(orphan.hash) {
          return false, more;
        }
      }
      NoChildren(prevOf, orphans, prevOrphans, parent);
      ok := true;
    }

    // The work queue of processOrphans.
    method DrainQueue(hash: Hash, accepts: Hash -> bool) returns (ok: bool, handed: seq<Hash>)
      requires Indexed(prevOf, orphans, prevOrphans)
      modifies this`orphans, this`prevOrphans
      ensures Indexed(prevOf, orphans, prevOrphans) && Progress(prevOf, hash, old(orphans), orphans, handed)
      ensures ok ==> AllTaken(accepts, handed)
      ensures ok ==> NoneWaiting(prevOf, orphans.Keys, {hash} + SetOf(handed))
      ensures !ok ==> StoppedAtLast(accepts, handed)
    {
      hide Indexed, Progress, NoneWaiting, Seen, SetOf, AllTaken, StoppedAtLast, ParentFirst, NoDup;
      var queue := [hash];
      SeenStart(hash, accepts);
      handed := [];
      ghost var finished: set<Hash> := {};
      ProgressStart(prevOf, hash, orphans);
      NoneWaitingStart(prevOf, orphans.Keys);
      while queue != []
        invariant Indexed(prevOf, orphans, prevOrphans) && Progress(prevOf, hash, old(orphans), orphans, handed)
        invariant Seen(finished, queue, hash, handed)
        invariant NoneWaiting(prevOf, orphans.Keys, finished) && AllTaken(accepts, handed)
        decreases |orphans|, |queue|
      {
        var parent := queue[0];
        SeenHead(finished, queue, hash, handed);
        ghost var keys := orphans.Keys;
        var good, more := ProcessChildren(parent, accepts, hash, old(orphans), handed);
        if !good {
          StoppedJoin(accepts, handed, more);
          return false, handed + more;
        }
        TakenJoin(accepts, handed, more);
        SeenStep(finished, queue, hash, handed, more);
        NoneWaitingMore(prevOf, keys, orphans.Keys, finished, parent);
        handed, queue, finished := handed + more, queue[1..] + more, finished + {parent};
      }
      ok := true;
      SeenAll(finished, hash, handed);
    }

    // processOrphans: accepts says which blocks the chain takes.
    method ProcessOrphans(hash: Hash, accepts: Hash -> bool) returns (ok: bool, handed: seq<Hash>)
      requires Valid()
      modifies this`orphans, this`prevOrphans
      ensures Valid() && Progress(prevOf, hash, old(orphans), orphans, handed)
      ensures ok ==> AllTaken(accepts, handed)
      ensures ok ==> NoneWaiting(prevOf, orphans.Keys, {hash} + SetOf(handed))
      ensures ok ==> forall h :: h in handed <==> Descends(prevOf, old(orphans).Keys, hash, h)
      ensures !ok ==> StoppedAtLast(accepts, handed)
    {
      hide Indexed, Progress, NoneWaiting, Descends, SetOf, AllTaken, StoppedAtLast;
      ok, handed := DrainQueue(hash, accepts);
      ProgressSize(prevOf, hash, old(orphans), orphans, handed);
      if ok {
        Finish(prevOf, hash, old(orphans), orphans, handed);
      }
    }
  }

  /** The run of processOrphans */

  // What has been handed on left the pool, once each, and after its parent.
  ghost predicate Progress(prevOf: Hash -> Hash, root: Hash, was: Pool, pool: Pool, handed: seq<Hash>) {
    && NoDup(handed) && (forall h :: h in handed ==> h in was)
    && pool == was - SetOf(handed)
    && ParentFirst(prevOf, root, handed)
  }

  predicate AllTaken(accepts: Hash -> bool, s: seq<Hash>) {
    forall h :: h in s ==> accepts(h)
  }

  // All but the last were taken, and the last was refused.
  predicate StoppedAtLast(accepts: Hash -> bool, s: seq<Hash>) {
    s != [] && AllTaken(accepts, s[..|s| - 1]) && !accepts(s[|s| - 1])
  }

  lemma ProgressStart(prevOf: Hash -> Hash, root: Hash, was: Pool)
    ensures Progress(prevOf, root, was, was, [])
  {
    assert was == was - SetOf([]);
  }

  lemma ProgressStep(prevOf: Hash -> Hash, root: Hash, was: Pool, pool: Pool, handed: seq<Hash>, h: Hash)
    requires Progress(prevOf, root, was, pool, handed) && h in pool && (prevOf(h) == root || prevOf(h) in handed)
    ensures Progress(prevOf, root, was, pool - {h}, handed + [h])
  {
    var next := handed + [h];
    SetOfJoin(handed, [h]);
    assert pool - {h} == was - SetOf(next);
    forall i | 0 <= i < |next| ensures prevOf(next[i]) == root || prevOf(next[i]) in next[..i] {
      assert next[..i] == handed[..i];
      assert i == |handed| ==> handed[..i] == handed;
    }
  }

  lemma ProgressSize(prevOf: Hash -> Hash, root: Hash, was: Pool, pool: Pool, handed: seq<Hash>)
    requires Progress(prevOf, root, was, pool, handed)
    ensures |pool| <= |was| && (|pool| == |was| ==> pool == was)
  {
    KeptSmaller(was, pool);
  }

  lemma ListHead(prevOf: Hash -> Hash, pool: Pool, index: Index, p: Hash)
    requires Indexed(prevOf, pool, index) && p in index
    ensures index[p] != [] && index[p][0].hash in pool && prevOf(index[p][0].hash) == p
  {
    assert ListOk(prevOf, pool, p, index[p]);
    assert index[p][0] in index[p];
  }

  lemma NoChildren(prevOf: Hash -> Hash, pool: Pool, index: Index, p: Hash)
    requires Indexed(prevOf, pool, index) && p !in index
    ensures NoneWaiting(prevOf, pool.Keys, {p})
  {
  }

  lemma NoneWaitingStart(prevOf: Hash -> Hash, keys: set<Hash>)
    ensures NoneWaiting(prevOf, keys, {})
  {
  }

  lemma NoneWaitingMore(prevOf: Hash -> Hash, keys: set<Hash>, keys': set<Hash>, finished: set<Hash>, p: Hash)
    requires NoneWaiting(prevOf, keys, finished) && keys' <= keys && NoneWaiting(prevOf, keys', {p})
    ensures NoneWaiting(prevOf, keys', finished + {p})
  {
  }

  lemma SetOfJoin(a: seq<Hash>, b: seq<Hash>)
    ensures SetOf(a + b) == SetOf(a) + SetOf(b)
    ensures |a| == 1 ==> SetOf(a) == {a[0]}
    ensures |b| == 1 ==> SetOf(b) == {b[0]}
  {
  }

  // The parents dealt with and those queued are root and the blocks handed on.
  ghost predicate Seen(finished: set<Hash>, queue: seq<Hash>, root: Hash, handed: seq<Hash>) {
    finished + SetOf(queue) == {root} + SetOf(handed)
  }

  lemma SeenStart(root: Hash, accepts: Hash -> bool)
    ensures Seen({}, [root], root, []) && AllTaken(accepts, [])
  {
  }

  lemma SeenHead(finished: set<Hash>, queue: seq<Hash>, root: Hash, handed: seq<Hash>)
    requires queue != [] && Seen(finished, queue, root, handed)
    ensures queue[0] == root || queue[0] in handed
  {
    assert queue[0] in SetOf(queue);
  }

  lemma SeenStep(finished: set<Hash>, queue: seq<Hash>, root: Hash, handed: seq<Hash>, more: seq<Hash>)
    requires queue != [] && Seen(finished, queue, root, handed)
    ensures Seen(finished + {queue[0]}, queue[1..] + more, root, handed + more)
  {
    hide SetOf;
    assert queue == [queue[0]] + queue[1..];
    SetOfJoin([queue[0]], queue[1..]);
    SetOfJoin(queue[1..], more);
    SetOfJoin(handed, more);
  }

  lemma SeenAll(finished: set<Hash>, root: Hash, handed: seq<Hash>)
    requires Seen(finished, [], root, handed)
    ensures finished == {root} + SetOf(handed)
  {
  }

  lemma StoppedJoin(accepts: Hash -> bool, a: seq<Hash>, b: seq<Hash>)
    requires AllTaken(accepts, a) && StoppedAtLast(accepts, b)
    ensures StoppedAtLast(accepts, a + b)
  {
    assert (a + b)[..|a + b| - 1] == a + b[..|b| - 1];
  }

  lemma TakenNext(accepts: Hash -> bool, a: seq<Hash>, h: Hash)
    requires AllTaken(accepts, a)
    ensures if accepts(h) then AllTaken(accepts, a + [h]) else StoppedAtLast(accepts, a + [h])
  {
    assert (a + [h])[..|a + [h]| - 1] == a;
  }

  lemma TakenJoin(accepts: Hash -> bool, a: seq<Hash>, b: seq<Hash>)
    requires AllTaken(accepts, a) && AllTaken(accepts, b)
    ensures AllTaken(accepts, a + b)
  {
  }

  lemma Finish(prevOf: Hash -> Hash, root: Hash, was: Pool, pool: Pool, handed: seq<Hash>)
    requires Progress(prevOf, root, was, pool, handed) && NoneWaiting(prevOf, pool.Keys, {root} + SetOf(handed))
    ensures forall h :: h in handed <==> Descends(prevOf, was.Keys, root, h)
  {
    hide NoneWaiting, ParentFirst, Descends;
    assert pool.Keys == was.Keys - SetOf(handed);
    ExactlyDescendants(prevOf, was.Keys, root, handed);
  }

  // A full pool always has an orphan to evict, remembered or found.
  lemma OldestExists(before: Option<Orphan>, live: Pool, o: Option<Orphan>)
    requires IsOldest(before, live, o) && |live| >= MAX_ORPHAN_BLOCKS
    ensures o.Some? && (before.None? ==> o.value.hash in live)
  {
    assert live != map[];
  }

  // The size once the oldest has been evicted from a full pool.
  lemma SizeAfter(before: Option<Orphan>, live: Pool, evicted: Option<Orphan>)
    requires |live| <= MAX_ORPHAN_BLOCKS + 1 && (|live| == MAX_ORPHAN_BLOCKS + 1 ==> before.None?)
    requires if |live| >= MAX_ORPHAN_BLOCKS then IsOldest(before, live, evicted) else evicted == None
    ensures |live - Hashes(evicted)| + 1 > MAX_ORPHAN_BLOCKS <==> Overflows(before, live)
    ensures |live - Hashes(evicted)| <= MAX_ORPHAN_BLOCKS
  {
    if |live| >= MAX_ORPHAN_BLOCKS {
      OldestExists(before, live, evicted);
      SizeOfRemoval(live, evicted.value.hash);
    } else {
      NothingEvicted(live);
    }
  }

  /** A run that passes the stated limit: the orphan remembered as the oldest is accepted,
      ninety-nine more arrive, and evicting it for the next one removes nothing. */
  method OverflowReached() returns (pool: OrphanPool)
    ensures fresh(pool) && pool.Valid() && |pool.orphans| == MAX_ORPHAN_BLOCKS + 1
  {
    hide Indexed, Added, Overflows, FilledTo, Live;
    pool := StaleOldest();
    var next := 3;
    while next < 103
      invariant 3 <= next <= 103 && pool.Valid() && fresh(pool)
      invariant next <= 102 ==> FilledTo(pool.orphans, pool.oldestOrphan, next)
      invariant next == 103 ==> |pool.orphans| == MAX_ORPHAN_BLOCKS + 1
    {
      AllLive(pool.orphans, pool.oldestOrphan, next);
      ghost var was, oldest := pool.orphans, pool.oldestOrphan;
      ghost var evicted := pool.AddOrphanBlock(next, 1);
      FillOne(was, oldest, next, evicted, pool.orphans, pool.oldestOrphan);
      next := next + 1;
    }
  }

  // Then the parent of block 1 arrives.
  method StaleOldest() returns (pool: OrphanPool)
    ensures fresh(pool) && pool.Valid() && FilledTo(pool.orphans, pool.oldestOrphan, 3)
  {
    hide Indexed, NoneWaiting, Progress, Descends, AllTaken, StoppedAtLast, FilledTo;
    pool := TwoArrive();
    ghost var was := pool.orphans;
    var everything := (h: Hash) => true;
    var ok, handed := pool.ProcessOrphans(1000, everything);
    AlwaysTaken(everything, handed);
    OnlyFirst(pool.prevOf, was);
    FirstLeaves(pool.prevOf, was, pool.orphans, handed);
  }

  // Blocks 1 and 2 arrive, and block 1 is remembered as the oldest.
  method TwoArrive() returns (pool: OrphanPool)
    ensures fresh(pool) && pool.Valid() && pool.prevOf(1) == 1000 && pool.prevOf(2) == 2000
    ensures pool.orphans == map[1 := Orphan(1, HOUR), 2 := Orphan(2, 1 + HOUR)]
    ensures pool.oldestOrphan == Some(Orphan(1, HOUR))
  {
    hide Indexed, Added, Overflows;
    pool := new OrphanPool(h => if h == 1 then 1000 else 2000);
    ghost var evicted := pool.AddOrphanBlock(1, 0);
    FirstArrives(evicted, pool.orphans, pool.oldestOrphan);
    ghost var was := pool.orphans;
    evicted := pool.AddOrphanBlock(2, 1);
    SecondArrives(was, evicted, pool.orphans, pool.oldestOrphan);
  }

  lemma FirstArrives(evicted: Option<Orphan>, pool': Pool, oldest': Option<Orphan>)
    requires Added(map[], None, 1, 0, evicted, pool', oldest')
    ensures pool' == map[1 := Orphan(1, HOUR)] && oldest' == None
  {
    assert Live(map[], 0) == map[];
  }

  lemma SecondArrives(was: Pool, evicted: Option<Orphan>, pool': Pool, oldest': Option<Orphan>)
    requires was == map[1 := Orphan(1, HOUR)] && Added(was, None, 2, 1, evicted, pool', oldest')
    ensures pool' == map[1 := Orphan(1, HOUR), 2 := Orphan(2, 1 + HOUR)] && oldest' == Some(Orphan(1, HOUR))
  {
    assert Live(was, 1) == was;
    assert |was| == |was.Keys| == |{1}|;
  }

  lemma AlwaysTaken(accepts: Hash -> bool, handed: seq<Hash>)
    requires forall h :: accepts(h)
    ensures !StoppedAtLast(accepts, handed)
  {
  }

  lemma FirstLeaves(prevOf: Hash -> Hash, was: Pool, pool: Pool, handed: seq<Hash>)
    requires was == map[1 := Orphan(1, HOUR), 2 := Orphan(2, 1 + HOUR)]
    requires Progress(prevOf, 1000, was, pool, handed) && 1 in handed && 2 !in handed
    ensures FilledTo(pool, Some(Orphan(1, HOUR)), 3)
  {
    assert pool == map[2 := Orphan(2, 1 + HOUR)];
    assert |pool| == |pool.Keys| == |{2}|;
  }

  lemma OnlyFirst(prevOf: Hash -> Hash, was: Pool)
    requires was == map[1 := Orphan(1, HOUR), 2 := Orphan(2, 1 + HOUR)]
    requires prevOf(1) == 1000 && prevOf(2) == 2000
    ensures Descends(prevOf, was.Keys, 1000, 1) && !Descends(prevOf, was.Keys, 1000, 2)
  {
    var pool := was.Keys;
    assert DescendsWithin(prevOf, pool, 1000, 1, 0);
    forall steps ensures !DescendsWithin(prevOf, pool, 1000, 2, steps) {
      assert 2000 !in pool;
    }
  }

  // The pool holds blocks 2 to n - 1, all expiring after block 1, which is remembered as
  // the oldest although it has left.
  ghost predicate FilledTo(pool: Pool, oldest: Option<Orphan>, n: nat) {
    && |pool| == n - 2
    && (forall h :: h in pool <==> 2 <= h < n)
    && (forall h :: h in pool ==> pool[h].expiration == 1 + HOUR)
    && oldest == Some(Orphan(1, HOUR))
  }

  lemma AllLive(pool: Pool, oldest: Option<Orphan>, n: nat)
    requires FilledTo(pool, oldest, n)
    ensures Live(pool, 1) == pool && Older(oldest, pool) && oldest.value.hash !in pool && n !in pool
  {
  }

  lemma FillOne(pool: Pool, oldest: Option<Orphan>, n: nat, evicted: Option<Orphan>, pool': Pool,
                oldest': Option<Orphan>)
    requires 3 <= n <= 102 && FilledTo(pool, oldest, n)
    requires Added(pool, oldest, n, 1, evicted, pool', oldest')
    ensures |pool'| == n - 1 && (n < 102 ==> FilledTo(pool', oldest', n + 1))
  {
    AllLive(pool, oldest, n);
    assert pool - Hashes(evicted) == pool;
    SizeOfAdding(pool, Orphan(n, 1 + HOUR));
  }

  lemma LiveSmaller(pool: Pool, now: int)
    ensures Live(pool, now).Keys <= pool.Keys && |Live(pool, now)| <= |pool|
    ensures |Live(pool, now)| == |pool| ==> Live(pool, now) == pool
  {
    KeptSmaller(pool, Live(pool, now));
  }

  lemma IsAdded(pool: Pool, oldest: Option<Orphan>, hash: Hash, now: int, found: Option<Orphan>,
                evicted: Option<Orphan>,
                pool': Pool, oldest': Option<Orphan>)
    requires IsOldest(oldest, Live(pool, now), found)
    requires pool' == (Live(pool, now) - Hashes(evicted))[hash := Orphan(hash, now + HOUR)]
    requires if |Live(pool, now)| + 1 > MAX_ORPHAN_BLOCKS then evicted == found && found.Some? && oldest' == None
             else evicted == None && oldest' == found
    ensures Added(pool, oldest, hash, now, evicted, pool', oldest')
  {
    hide Live, IsOldest, Hashes;
  }

  lemma OneEvicted(pool: Pool, o: Option<Orphan>)
    requires o.Some?
    ensures pool - Hashes(o) == pool - {o.value.hash}
  {
  }

  lemma NothingEvicted(pool: Pool)
    ensures pool - Hashes(None) == pool
  {
  }

  lemma SizeOfAdding(pool: Pool, o: Orphan)
    requires o.hash !in pool
    ensures |pool[o.hash := o]| == |pool| + 1
  {
    assert pool[o.hash := o].Keys == pool.Keys + {o.hash};
    assert |pool[o.hash := o]| == |pool[o.hash := o].Keys| && |pool| == |pool.Keys|;
  }

  lemma IndexedHashes(prevOf: Hash -> Hash, pool: Pool, index: Index)
    requires Indexed(prevOf, pool, index)
    ensures forall h :: h in pool ==> pool[h].hash == h
  {
  }

  lemma KeptSmaller(a: Pool, b: Pool)
    requires b.Keys <= a.Keys
    ensures |b| <= |a|
    ensures |b| == |a| ==> b.Keys == a.Keys
  {
    SubsetSize(b.Keys, a.Keys);
    assert |a| == |a.Keys| && |b| == |b.Keys|;
  }

  lemma SubsetSize(s: set<Hash>, t: set<Hash>)
    requires s <= t
    ensures |s| <= |t| && (|s| == |t| ==> s == t)
  {
    assert t == s + (t - s);
    assert |t| == |s| + |t - s|;
  }

  lemma SizeOfRemoval(a: Pool, h: Hash)
    ensures |a - {h}| == if h in a then |a| - 1 else |a|
  {
    assert (a - {h}).Keys == a.Keys - {h};
    assert |a - {h}| == |(a - {h}).Keys| && |a| == |a.Keys|;
  }

  // The in-place loop over a list, which does not advance past a removed slot.
  method RemoveFromList(list: seq<Orphan>, h: Hash) returns (r: seq<Orphan>)
    ensures r == Without(list, h)
  {
    hide Without;
    r := list;
    var i := 0;
    while i < |r|
      invariant 0 <= i <= |r| && Without(r, h) == Without(list, h)
      invariant forall o :: o in r[..i] ==> o.hash != h
      decreases |r| - i
    {
      if r[i].hash == h {
        RemoveSlot(r, i, h);
        assert (r[..i] + r[i + 1..])[..i] == r[..i];
        r := r[..i] + r[i + 1..];
      } else {
        assert r[..i + 1] == r[..i] + [r[i]];
        i := i + 1;
      }
    }
    assert r[..i] == r;
    WithoutNothing(r, h);
  }

  lemma RemoveSlot(r: seq<Orphan>, i: nat, h: Hash)
    requires i < |r| && r[i].hash == h && forall o :: o in r[..i] ==> o.hash != h
    ensures Without(r[..i] + r[i + 1..], h) == Without(r, h)
  {
    WithoutSplit(r[..i], r[i..], h);
    WithoutSplit(r[..i], r[i + 1..], h);
    assert r[..i] + r[i..] == r;
    assert r[i..][0] == r[i] && r[i..][1..] == r[i + 1..];
  }

  lemma WithoutNothing(r: seq<Orphan>, h: Hash)
    requires forall o :: o in r ==> o.hash != h
    ensures Without(r, h) == r
  {
    WithoutSplit(r, [], h);
    assert r + [] == r && r + Without([], h) == r;
  }
}
