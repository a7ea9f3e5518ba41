/**
 The store of oversized results: an index in memory and one directory per result on disk, pruned
 by expiry, by age, and by size.
 */
module ArtifactStore {
  import opened Common

  type Id = string

  // Times are in nanoseconds from the epoch.
  const ARTIFACT_RETENTION: nat := 72 * 60 * 60 * SECOND
  const ARTIFACT_STORE_MAX_BYTES: nat := 5 * 1024 * 1024 * 1024

  datatype Record = Record(expiresAt: nat)

  // `metadata`: the expiry in whole seconds, when the directory has a metadata file.
  datatype Dir = Dir(modified: Option<nat>, size: nat, metadata: Option<nat>)

  datatype Store = Store(records: map<Id, Record>, dirs: map<Id, Dir>)

  // -------------------------------------------------------------------------
  // Oldest first
  // -------------------------------------------------------------------------

  function Age(dirs: map<Id, Dir>, id: Id): nat
    requires id in dirs
  {
    match dirs[id].modified
    case Some(m) => m
    case None => 0
  }

  ghost predicate Listed(dirs: map<Id, Dir>, ids: seq<Id>) {
    NoDuplicates(ids) && forall id :: id in ids <==> id in dirs
  }

  predicate OldestFirst(dirs: map<Id, Dir>, ids: seq<Id>)
    requires forall id :: id in ids ==> id in dirs
  {
    forall i, j :: 0 <= i < j < |ids| ==> Age(dirs, ids[i]) <= Age(dirs, ids[j])
  }

  // Stable: goes after every entry no younger than it.
  function Insert(dirs: map<Id, Dir>, sorted: seq<Id>, id: Id): seq<Id>
    requires id in dirs && forall other :: other in sorted ==> other in dirs
  {
    if sorted == [] then [id]
    else if Age(dirs, sorted[|sorted| - 1]) <= Age(dirs, id) then sorted + [id]
    else Insert(dirs, sorted[..|sorted| - 1], id) + [sorted[|sorted| - 1]]
  }

  lemma LastApart(ids: seq<Id>)
    requires ids != []
    ensures multiset(ids) == multiset(ids[..|ids| - 1]) + multiset{ids[|ids| - 1]}
    ensures forall id :: id in ids <==> id in ids[..|ids| - 1] || id == ids[|ids| - 1]
  {
    assert ids == ids[..|ids| - 1] + [ids[|ids| - 1]];
  }

  function SortByAge(dirs: map<Id, Dir>, ids: seq<Id>): (sorted: seq<Id>)
    requires forall id :: id in ids ==> id in dirs
    ensures multiset(sorted) == multiset(ids)
    ensures forall id :: id in sorted <==> id in ids
    ensures OldestFirst(dirs, sorted)
  {
    if ids == [] then []
    else
      var rest := SortByAge(dirs, ids[..|ids| - 1]);
      InsertSorts(dirs, rest, ids[|ids| - 1]);
      LastApart(ids);
      Insert(dirs, rest, ids[|ids| - 1])
  }

  lemma {:induction false} InsertHolds(dirs: map<Id, Dir>, sorted: seq<Id>, id: Id)
    requires id in dirs && forall other :: other in sorted ==> other in dirs
    ensures multiset(Insert(dirs, sorted, id)) == multiset(sorted) + multiset{id}
    ensures forall other :: other in Insert(dirs, sorted, id) <==> other in sorted || other == id
  {
    if sorted != [] {
      var n := |sorted| - 1;
      assert sorted == sorted[..n] + [sorted[n]];
      InsertHolds(dirs, sorted[..n], id);
    }
  }

  lemma OldestThenYoungest(dirs: map<Id, Dir>, ids: seq<Id>, last: Id)
    requires last in dirs && forall id :: id in ids ==> id in dirs && Age(dirs, id) <= Age(dirs, last)
    requires OldestFirst(dirs, ids)
    ensures forall id :: id in ids + [last] ==> id in dirs
    ensures OldestFirst(dirs, ids + [last])
  {
  }

  lemma {:induction false} InsertSorts(dirs: map<Id, Dir>, sorted: seq<Id>, id: Id)
    requires id in dirs && forall other :: other in sorted ==> other in dirs
    requires OldestFirst(dirs, sorted)
    ensures multiset(Insert(dirs, sorted, id)) == multiset(sorted) + multiset{id}
    ensures forall other :: other in Insert(dirs, sorted, id) <==> other in sorted || other == id
    ensures OldestFirst(dirs, Insert(dirs, sorted, id))
  {
    InsertHolds(dirs, sorted, id);
    if sorted != [] {
      var n := |sorted| - 1;
      if Age(dirs, sorted[n]) > Age(dirs, id) {
        InsertSorts(dirs, sorted[..n], id);
        OldestThenYoungest(dirs, Insert(dirs, sorted[..n], id), sorted[n]);
      } else {
        OldestThenYoungest(dirs, sorted, id);
      }
    }
  }

  // -------------------------------------------------------------------------
  // Sizes
  // -------------------------------------------------------------------------

  function Bytes(dirs: map<Id, Dir>, ids: seq<Id>): nat
    requires forall id :: id in ids ==> id in dirs
  {
    if ids == [] then 0 else Bytes(dirs, ids[..|ids| - 1]) + dirs[ids[|ids| - 1]].size
  }

  lemma {:induction false} BytesSplit(dirs: map<Id, Dir>, a: seq<Id>, b: seq<Id>)
    requires forall id :: id in a + b ==> id in dirs
    ensures forall id :: id in a ==> id in dirs
    ensures forall id :: id in b ==> id in dirs
    ensures Bytes(dirs, a + b) == Bytes(dirs, a) + Bytes(dirs, b)
  {
    assert forall id :: id in a ==> id in a + b;
    assert forall id :: id in b ==> id in a + b;
    if b == [] {
      assert a + b == a;
    } else {
      var n := |b| - 1;
      assert (a + b)[..|a + b| - 1] == a + b[..n];
      BytesSplit(dirs, a, b[..n]);
    }
  }

  function Without(ids: seq<Id>, i: nat): seq<Id>
    requires i < |ids|
  {
    ids[..i] + ids[i + 1..]
  }

  lemma BytesWithout(dirs: map<Id, Dir>, ids: seq<Id>, i: nat)
    requires i < |ids| && forall id :: id in ids ==> id in dirs
    ensures forall id :: id in Without(ids, i) ==> id in dirs
    ensures Bytes(dirs, ids) == Bytes(dirs, Without(ids, i)) + dirs[ids[i]].size
  {
    var x, a, c := ids[i], ids[..i], ids[i + 1..];
    assert ids == a + ([x] + c);
    BytesSplit(dirs, a, [x] + c);
    BytesSplit(dirs, [x], c);
    BytesSplit(dirs, a, c);
    assert Bytes(dirs, [x]) == dirs[x].size by {
      assert [x][..0] == [];
    }
  }

  lemma MultisetWithout(ids: seq<Id>, i: nat)
    requires i < |ids|
    ensures multiset(Without(ids, i)) == multiset(ids) - multiset{ids[i]}
  {
    assert ids == ids[..i] + [ids[i]] + ids[i + 1..];
  }

  // The total does not depend on the order the directories are listed in.
  lemma {:induction false} BytesSameInAnyOrder(dirs: map<Id, Dir>, a: seq<Id>, b: seq<Id>)
    requires forall id :: id in a ==> id in dirs
    requires multiset(a) == multiset(b)
    ensures forall id :: id in b ==> id in dirs
    ensures Bytes(dirs, a) == Bytes(dirs, b)
    decreases |a|
  {
    assert forall id :: id in b ==> id in multiset(a);
    if a == [] {
      assert |multiset(b)| == 0;
    } else {
      var n := |a| - 1;
      assert a[n] in multiset(b);
      var i :| 0 <= i < |b| && b[i] == a[n];
      MultisetWithout(a, n);
      MultisetWithout(b, i);
      BytesWithout(dirs, a, n);
      BytesWithout(dirs, b, i);
      BytesSameInAnyOrder(dirs, Without(a, n), Without(b, i));
    }
  }

  // -------------------------------------------------------------------------
  // Pruning
  // -------------------------------------------------------------------------

  function Expired(s: Store, now: nat): set<Id> {
    set id | id in s.records && s.records[id].expiresAt <= now
  }

  function TooOld(dirs: map<Id, Dir>, now: nat, retention: nat): set<Id> {
    set id | id in dirs && dirs[id].modified.Some? && dirs[id].modified.value <= now
             && now - dirs[id].modified.value > retention
  }

  // The first two passes: by expiry, both sides; by age, the directories alone.
  function AfterAges(s: Store, now: nat, retention: nat): Store {
    var dirs := s.dirs - Expired(s, now);
    Store(s.records - Expired(s, now), dirs - TooOld(dirs, now, retention))
  }

  function Filtered(dirs: map<Id, Dir>, order: seq<Id>): seq<Id> {
    if order == [] then []
    else
      var n := |order| - 1;
      Filtered(dirs, order[..n]) + (if order[n] in dirs then [order[n]] else [])
  }

  lemma {:induction false} FilteredHolds(dirs: map<Id, Dir>, order: seq<Id>)
    ensures forall id :: id in Filtered(dirs, order) <==> id in order && id in dirs
    ensures NoDuplicates(order) ==> NoDuplicates(Filtered(dirs, order))
  {
    if order != [] {
      var n := |order| - 1;
      FilteredHolds(dirs, order[..n]);
      assert order == order[..n] + [order[n]];
    }
  }

  function Present(dirs: map<Id, Dir>, order: seq<Id>): (ids: seq<Id>)
    ensures forall id :: id in ids <==> id in order && id in dirs
    ensures NoDuplicates(order) ==> NoDuplicates(ids)
  {
    FilteredHolds(dirs, order);
    Filtered(dirs, order)
  }

  // How many of the oldest go before the rest fits.
  function Cut(dirs: map<Id, Dir>, ids: seq<Id>, max: nat): (n: nat)
    requires forall id :: id in ids ==> id in dirs
    ensures n <= |ids|
    ensures Bytes(dirs, ids[n..]) <= max
    ensures forall k :: 0 <= k < n ==> Bytes(dirs, ids[k..]) > max
  {
    if Bytes(dirs, ids) <= max then
      assert ids[0..] == ids;
      0
    else
      var n := Cut(dirs, ids[1..], max);
      assert forall k :: 1 <= k <= |ids| ==> ids[k..] == ids[1..][k - 1..];
      assert ids[0..] == ids;
      n + 1
  }

  function Evicted(dirs: map<Id, Dir>, order: seq<Id>, max: nat): seq<Id> {
    var sorted := SortByAge(dirs, Present(dirs, order));
    sorted[..Cut(dirs, sorted, max)]
  }

  function AsSet(ids: seq<Id>): set<Id> {
    set id | id in ids
  }

  // `order` is the order the directory listing happens to come in.
  function Prune(s: Store, order: seq<Id>, now: nat, retention: nat, max: nat): Store {
    var t := AfterAges(s, now, retention);
    var gone := AsSet(Evicted(t.dirs, order, max));
    Store(t.records - gone, t.dirs - gone)
  }

  lemma EvictedPrefix(dirs: map<Id, Dir>, order: seq<Id>, max: nat)
    requires Listed(dirs, order)
    ensures var sorted := SortByAge(dirs, Present(dirs, order));
            var n := Cut(dirs, sorted, max);
            && multiset(sorted) == multiset(order) && NoDuplicates(sorted)
            && Evicted(dirs, order, max) == sorted[..n]
            && (forall id :: id in dirs <==> id in sorted[..n] || id in sorted[n..])
            && (forall id :: id in sorted[..n] ==> id !in sorted[n..])
  {
    var sorted := SortByAge(dirs, Present(dirs, order));
    PresentAll(dirs, order);
    assert multiset(sorted) == multiset(order);
    MultisetNoDuplicates(order, sorted);
    PrefixAndTail(sorted, Cut(dirs, sorted, max));
    forall id ensures id in dirs <==> id in sorted {
      assert id in order <==> id in multiset(order);
    }
  }

  lemma {:induction false} FilteredAll(dirs: map<Id, Dir>, order: seq<Id>)
    requires forall i :: 0 <= i < |order| ==> order[i] in dirs
    ensures Filtered(dirs, order) == order
  {
    if order != [] {
      var n := |order| - 1;
      FilteredAll(dirs, order[..n]);
      assert order == order[..n] + [order[n]];
    }
  }

  lemma PresentAll(dirs: map<Id, Dir>, order: seq<Id>)
    requires forall id :: id in order ==> id in dirs
    ensures Present(dirs, order) == order
  {
    FilteredAll(dirs, order);
  }

  lemma PrefixAndTail(sorted: seq<Id>, n: nat)
    requires n <= |sorted| && NoDuplicates(sorted)
    ensures forall id :: id in sorted <==> id in sorted[..n] || id in sorted[n..]
    ensures forall id :: id in sorted[..n] ==> id !in sorted[n..]
  {
    assert sorted == sorted[..n] + sorted[n..];
  }

  lemma MultisetNoDuplicates(a: seq<Id>, b: seq<Id>)
    requires NoDuplicates(a) && multiset(a) == multiset(b)
    ensures NoDuplicates(b)
  {
    forall i, j | 0 <= i < j < |b| ensures b[i] != b[j] {
      if b[i] == b[j] {
        TwiceInMultiset(b, i, j);
        OnceInMultiset(a, b[i]);
        assert false;
      }
    }
  }

  lemma TwiceInMultiset(b: seq<Id>, i: nat, j: nat)
    requires i < j < |b| && b[i] == b[j]
    ensures multiset(b)[b[i]] >= 2
  {
    assert b == b[..i] + [b[i]] + b[i + 1..j] + [b[j]] + b[j + 1..];
  }

  lemma {:induction false} OnceInMultiset(a: seq<Id>, x: Id)
    requires NoDuplicates(a)
    ensures multiset(a)[x] <= 1
  {
    if a != [] {
      var n := |a| - 1;
      assert a == a[..n] + [a[n]];
      OnceInMultiset(a[..n], x);
      assert a[n] !in a[..n];
    }
  }

  lemma SameElementsSameBytes(d: map<Id, Dir>, e: map<Id, Dir>, a: seq<Id>, b: seq<Id>)
    requires NoDuplicates(a) && NoDuplicates(b)
    requires forall id :: id in a <==> id in b
    requires forall id :: id in a ==> id in d && id in e && d[id] == e[id]
    ensures Bytes(d, a) == Bytes(e, b)
  {
    forall id ensures multiset(a)[id] == multiset(b)[id] {
      OnceInMultiset(a, id);
      OnceInMultiset(b, id);
      assert id in a <==> id in multiset(a);
      assert id in b <==> id in multiset(b);
    }
    BytesSameInAnyOrder(d, a, b);
    SameDirsSameBytes(d, e, b);
  }

  lemma {:induction false} SameDirsSameBytes(d: map<Id, Dir>, e: map<Id, Dir>, ids: seq<Id>)
    requires forall id :: id in ids ==> id in d && id in e && d[id] == e[id]
    ensures Bytes(d, ids) == Bytes(e, ids)
  {
    if ids != [] {
      SameDirsSameBytes(d, e, ids[..|ids| - 1]);
    }
  }

  // Nothing expired is left in the index and nothing over age on disk, and the
  // size pass takes the same entries from both sides.
  lemma PruneLeavesNothingOld(s: Store, order: seq<Id>, now: nat, retention: nat, max: nat)
    ensures var r := Prune(s, order, now, retention, max);
            && (forall id :: id in r.records ==>
                  id in s.records && r.records[id] == s.records[id] && r.records[id].expiresAt > now)
            && (forall id :: id in r.dirs ==> id in s.dirs && r.dirs[id] == s.dirs[id])
            && (forall id :: id in r.dirs && r.dirs[id].modified.Some? ==> now <= r.dirs[id].modified.value + retention)
  {
  }

  lemma LastOfCut(dirs: map<Id, Dir>, ids: seq<Id>, n: nat)
    requires (forall id :: id in ids ==> id in dirs) && 0 < n <= |ids|
    ensures Bytes(dirs, ids[n - 1..]) == dirs[ids[n - 1]].size + Bytes(dirs, ids[n..])
  {
    var last := ids[n - 1];
    assert ids[n - 1..] == [last] + ids[n..];
    BytesSplit(dirs, [last], ids[n..]);
    assert Bytes(dirs, [last]) == dirs[last].size by {
      assert [last][..0] == [];
    }
  }

  lemma SurvivorsAreTheTail(dirs: map<Id, Dir>, order: seq<Id>, max: nat, id: Id)
    requires Listed(dirs, order)
    ensures var sorted := SortByAge(dirs, Present(dirs, order));
            id in dirs - AsSet(Evicted(dirs, order, max)) <==> id in sorted[Cut(dirs, sorted, max)..]
  {
    EvictedPrefix(dirs, order, max);
    assert id in AsSet(Evicted(dirs, order, max)) <==> id in Evicted(dirs, order, max);
  }

  lemma EvictsOldestFirst(dirs: map<Id, Dir>, order: seq<Id>, max: nat, a: Id, b: Id)
    requires Listed(dirs, order)
    requires a in Evicted(dirs, order, max) && b in dirs - AsSet(Evicted(dirs, order, max))
    ensures a in dirs && Age(dirs, a) <= Age(dirs, b)
  {
    var sorted := SortByAge(dirs, Present(dirs, order));
    var n := Cut(dirs, sorted, max);
    SurvivorsAreTheTail(dirs, order, max, b);
    var i :| 0 <= i < n && sorted[i] == a;
    var j :| n <= j < |sorted| && sorted[j] == b;
    assert sorted[i] in sorted;
  }

  lemma SurvivorBytes(dirs: map<Id, Dir>, order: seq<Id>, max: nat, listing: seq<Id>)
    requires Listed(dirs, order)
    requires Listed(dirs - AsSet(Evicted(dirs, order, max)), listing)
    ensures var sorted := SortByAge(dirs, Present(dirs, order));
            Bytes(dirs - AsSet(Evicted(dirs, order, max)), listing) == Bytes(dirs, sorted[Cut(dirs, sorted, max)..])
  {
    var sorted := SortByAge(dirs, Present(dirs, order));
    var n := Cut(dirs, sorted, max);
    var rest := dirs - AsSet(Evicted(dirs, order, max));
    EvictedPrefix(dirs, order, max);
    forall id ensures id in listing <==> id in sorted[n..] {
      SurvivorsAreTheTail(dirs, order, max, id);
      assert id in rest <==> id in listing;
    }
    assert NoDuplicates(sorted[n..]);
    SameElementsSameBytes(rest, dirs, listing, sorted[n..]);
  }

  lemma SurvivorsFit(dirs: map<Id, Dir>, order: seq<Id>, max: nat, listing: seq<Id>)
    requires Listed(dirs, order)
    requires Listed(dirs - AsSet(Evicted(dirs, order, max)), listing)
    ensures Bytes(dirs - AsSet(Evicted(dirs, order, max)), listing) <= max
  {
    SurvivorBytes(dirs, order, max, listing);
  }

  lemma LastOfCutWasNeeded(dirs: map<Id, Dir>, ids: seq<Id>, max: nat)
    requires (forall id :: id in ids ==> id in dirs) && Cut(dirs, ids, max) > 0
    ensures var n := Cut(dirs, ids, max);
            ids[n - 1] in dirs && Bytes(dirs, ids[n..]) + dirs[ids[n - 1]].size > max
  {
    var n := Cut(dirs, ids, max);
    LastOfCut(dirs, ids, n);
    assert Bytes(dirs, ids[n - 1..]) > max;
  }

  lemma LastOfEvicted(dirs: map<Id, Dir>, order: seq<Id>, max: nat)
    requires Listed(dirs, order) && Evicted(dirs, order, max) != []
    ensures var evicted := Evicted(dirs, order, max);
            var sorted := SortByAge(dirs, Present(dirs, order));
            && evicted[|evicted| - 1] in dirs
            && Bytes(dirs, sorted[Cut(dirs, sorted, max)..]) + dirs[evicted[|evicted| - 1]].size > max
  {
    var sorted := SortByAge(dirs, Present(dirs, order));
    LastOfCutWasNeeded(dirs, sorted, max);
  }

  lemma LastEvictedWasNeeded(dirs: map<Id, Dir>, order: seq<Id>, max: nat, listing: seq<Id>)
    requires Listed(dirs, order) && Evicted(dirs, order, max) != []
    requires Listed(dirs - AsSet(Evicted(dirs, order, max)), listing)
    ensures var evicted := Evicted(dirs, order, max);
            && evicted[|evicted| - 1] in dirs
            && Bytes(dirs - AsSet(evicted), listing) + dirs[evicted[|evicted| - 1]].size > max
  {
    LastOfEvicted(dirs, order, max);
    SurvivorBytes(dirs, order, max, listing);
  }

  // The directories evicted for size are the shortest run of the oldest that
  // makes the rest fit: what stays fits, it did not fit with the last evicted
  // directory, and no directory that stays is older than an evicted one.
  lemma EvictsShortestOldestRun(dirs: map<Id, Dir>, order: seq<Id>, max: nat, listing: seq<Id>)
    requires Listed(dirs, order)
    requires Listed(dirs - AsSet(Evicted(dirs, order, max)), listing)
    ensures var evicted := Evicted(dirs, order, max);
            var rest := dirs - AsSet(evicted);
            && Bytes(rest, listing) <= max
            && (evicted != [] ==> evicted[|evicted| - 1] in dirs
                                  && Bytes(rest, listing) + dirs[evicted[|evicted| - 1]].size > max)
            && (forall a, b :: a in evicted && b in rest ==> a in dirs && Age(dirs, a) <= Age(rest, b))
  {
    var evicted := Evicted(dirs, order, max);
    var rest := dirs - AsSet(evicted);
    SurvivorsFit(dirs, order, max, listing);
    if evicted != [] {
      LastEvictedWasNeeded(dirs, order, max, listing);
    }
    forall a, b | a in evicted && b in rest ensures a in dirs && Age(dirs, a) <= Age(rest, b) {
      EvictsOldestFirst(dirs, order, max, a, b);
    }
  }

  // The size pass of a whole prune is that eviction, on the store the age
  // passes leave.
  lemma PruneEvictsOldestUntilItFits(s: Store, order: seq<Id>, now: nat, retention: nat, max: nat, listing: seq<Id>)
    requires Listed(s.dirs, order)
    requires Listed(Prune(s, order, now, retention, max).dirs, listing)
    ensures var t := AfterAges(s, now, retention);
            var r := Prune(s, order, now, retention, max);
            var evicted := Evicted(t.dirs, order, max);
            && r.dirs == t.dirs - AsSet(evicted) && r.records == t.records - AsSet(evicted)
            && Bytes(r.dirs, listing) <= max
            && (forall a, b :: a in evicted && b in r.dirs ==> a in t.dirs && Age(t.dirs, a) <= Age(r.dirs, b))
            && (evicted != [] ==> evicted[|evicted| - 1] in t.dirs
                                  && Bytes(r.dirs, listing) + t.dirs[evicted[|evicted| - 1]].size > max)
  {
    var t := AfterAges(s, now, retention);
    var present := Present(t.dirs, order);
    PresentAll(t.dirs, present);
    assert Evicted(t.dirs, present, max) == Evicted(t.dirs, order, max);
    EvictsShortestOldestRun(t.dirs, present, max, listing);
  }

  // -------------------------------------------------------------------------
  // Index and directories
  // -------------------------------------------------------------------------

  predicate IndexBacked(s: Store) {
    forall id :: id in s.records ==> id in s.dirs
  }

  // A prune keeps "every index entry has its directory" exactly when the age
  // pass takes no directory of a record that has not expired.
  lemma PruneKeepsIndexBacked(s: Store, order: seq<Id>, now: nat, retention: nat, max: nat)
    requires IndexBacked(s)
    ensures IndexBacked(Prune(s, order, now, retention, max))
            <==> forall id :: id in s.records && s.records[id].expiresAt > now ==> id !in TooOld(s.dirs, now, retention)
  {
    var t := AfterAges(s, now, retention);
    EvictedArePresent(t.dirs, order, max);
    forall id | id in s.records && s.records[id].expiresAt > now && id in TooOld(s.dirs, now, retention)
      ensures id in Prune(s, order, now, retention, max).records && id !in Prune(s, order, now, retention, max).dirs
    {
      assert id !in t.dirs && id in t.records;
    }
  }

  lemma EvictedArePresent(dirs: map<Id, Dir>, order: seq<Id>, max: nat)
    ensures forall id :: id in Evicted(dirs, order, max) ==> id in dirs
  {
    var sorted := SortByAge(dirs, Present(dirs, order));
    forall id | id in sorted[..Cut(dirs, sorted, max)] ensures id in dirs {
      assert id in sorted;
    }
  }

  // No record outlives its directory's age limit.
  predicate WithinRetention(s: Store, retention: nat) {
    forall id :: id in s.records && id in s.dirs && s.dirs[id].modified.Some? ==>
      s.records[id].expiresAt <= s.dirs[id].modified.value + retention
  }

  // -------------------------------------------------------------------------
  // Runs
  // -------------------------------------------------------------------------

  datatype Op =
    | Spill(id: Id, now: nat, size: nat, written: nat)  // `written`: when the metadata file lands in the directory
    | Read(id: Id, now: nat)
    | PruneNow(order: seq<Id>, now: nat)
    | Restart

  function Seconds(t: nat): nat {
    t / SECOND
  }

  function Rehydrated(dirs: map<Id, Dir>): map<Id, Record> {
    map id | id in dirs && dirs[id].metadata.Some? :: Record(dirs[id].metadata.value * SECOND)
  }

  function ReadStep(s: Store, id: Id, now: nat): Store {
    if id in s.records && now > s.records[id].expiresAt then Store(s.records - {id}, s.dirs - {id}) else s
  }

  function Step(s: Store, op: Op): Store {
    match op
    case Spill(id, now, size, written) =>
      var expires := now + ARTIFACT_RETENTION;
      Store(s.records[id := Record(expires)], s.dirs[id := Dir(Some(written), size, Some(Seconds(expires)))])
    case Read(id, now) => ReadStep(s, id, now)
    case PruneNow(order, now) => Prune(s, order, now, ARTIFACT_RETENTION, ARTIFACT_STORE_MAX_BYTES)
    case Restart => Store(Rehydrated(s.dirs), s.dirs)
  }

  // The directory is stamped no earlier than the record was made, because the
  // metadata file is written into it afterwards.
  predicate Possible(op: Op) {
    op.Spill? ==> op.written >= op.now
  }

  predicate MetadataWithinRetention(dirs: map<Id, Dir>) {
    forall id :: id in dirs && dirs[id].metadata.Some? && dirs[id].modified.Some? ==>
      dirs[id].metadata.value * SECOND <= dirs[id].modified.value + ARTIFACT_RETENTION
  }

  function Run(ops: seq<Op>): Store {
    if ops == [] then Store(map[], map[]) else Step(Run(ops[..|ops| - 1]), ops[|ops| - 1])
  }

  lemma RoundedDown(t: nat)
    ensures Seconds(t) * SECOND <= t
  {
  }

  // Over every run of spills, reads, prunes and restarts, every index entry has
  // its directory, so a read that finds a live record finds its payload too.
  lemma {:induction false} IndexAlwaysBacked(ops: seq<Op>)
    requires forall i :: 0 <= i < |ops| ==> Possible(ops[i])
    ensures var s := Run(ops);
            IndexBacked(s) && WithinRetention(s, ARTIFACT_RETENTION) && MetadataWithinRetention(s.dirs)
  {
    if ops != [] {
      var op, s := ops[|ops| - 1], Run(ops[..|ops| - 1]);
      IndexAlwaysBacked(ops[..|ops| - 1]);
      assert Possible(op);
      match op
      case Spill(id, now, size, written) => RoundedDown(now + ARTIFACT_RETENTION);
      case Read(_, _) =>
      case PruneNow(order, now) => PruneKeepsIndexBacked(s, order, now, ARTIFACT_RETENTION, ARTIFACT_STORE_MAX_BYTES);
      case Restart =>
    }
  }

  // -------------------------------------------------------------------------
  // A spilled artifact
  // -------------------------------------------------------------------------

  // There to be read until `expiresAt`: in the index, and on disk as it was written.
  predicate IsThere(s: Store, id: Id, size: nat, written: nat, expiresAt: nat, onDisk: nat) {
    && id in s.records && s.records[id].expiresAt == expiresAt
    && id in s.dirs && s.dirs[id] == Dir(Some(written), size, Some(onDisk))
  }

  // What takes it away: a read after its expiry, a prune at its expiry or later, one
  // that finds its directory over age, and one that evicts it for size.
  predicate TakesAway(s: Store, op: Op, id: Id, written: nat, expiresAt: nat) {
    match op
    case Read(other, now) => other == id && now > expiresAt
    case PruneNow(order, now) =>
      || now >= expiresAt
      || now > written + ARTIFACT_RETENTION
      || id in Evicted(AfterAges(s, now, ARTIFACT_RETENTION).dirs, order, ARTIFACT_STORE_MAX_BYTES)
    case _ => false
  }

  // A restart reads the expiry from disk, where it is in whole seconds.
  function ExpiryAfter(op: Op, expiresAt: nat, onDisk: nat): nat {
    if op.Restart? then onDisk * SECOND else expiresAt
  }

  lemma StaysThereExactly(s: Store, op: Op, id: Id, size: nat, written: nat, expiresAt: nat, onDisk: nat)
    requires IsThere(s, id, size, written, expiresAt, onDisk) && (op.Spill? ==> op.id != id)
    ensures if TakesAway(s, op, id, written, expiresAt) then id !in Step(s, op).records || id !in Step(s, op).dirs
            else IsThere(Step(s, op), id, size, written, ExpiryAfter(op, expiresAt, onDisk), onDisk)
  {
  }

  function ExpiryOver(ops: seq<Op>, expiresAt: nat, onDisk: nat): nat {
    if ops == [] then expiresAt
    else ExpiryAfter(ops[|ops| - 1], ExpiryOver(ops[..|ops| - 1], expiresAt, onDisk), onDisk)
  }

  lemma SpillPutsItThere(before: seq<Op>, id: Id, now: nat, size: nat, written: nat)
    ensures IsThere(Run(before + [Spill(id, now, size, written)]), id, size, written,
                    now + ARTIFACT_RETENTION, Seconds(now + ARTIFACT_RETENTION))
  {
    var ops := before + [Spill(id, now, size, written)];
    assert ops[..|ops| - 1] == before;
  }

  // A stretch of operations on a store.
  function RunFrom(s: Store, rest: seq<Op>): Store {
    if rest == [] then s else Step(RunFrom(s, rest[..|rest| - 1]), rest[|rest| - 1])
  }

  lemma {:induction false} RunInParts(before: seq<Op>, rest: seq<Op>)
    ensures Run(before + rest) == RunFrom(Run(before), rest)
  {
    if rest == [] {
      assert before + rest == before;
    } else {
      assert (before + rest)[..|before + rest| - 1] == before + rest[..|rest| - 1];
      RunInParts(before, rest[..|rest| - 1]);
    }
  }

  // No operation of the stretch spills the same artifact again or takes it away.
  predicate LeavesAlone(s: Store, rest: seq<Op>, id: Id, written: nat, expiresAt: nat, onDisk: nat) {
    if rest == [] then true
    else
      var before, op := rest[..|rest| - 1], rest[|rest| - 1];
      && LeavesAlone(s, before, id, written, expiresAt, onDisk)
      && (op.Spill? ==> op.id != id)
      && !TakesAway(RunFrom(s, before), op, id, written, ExpiryOver(before, expiresAt, onDisk))
  }

  lemma {:induction false} StaysThrough(
    s: Store, rest: seq<Op>, id: Id, size: nat, written: nat, expiresAt: nat, onDisk: nat)
    requires IsThere(s, id, size, written, expiresAt, onDisk)
    requires LeavesAlone(s, rest, id, written, expiresAt, onDisk)
    ensures IsThere(RunFrom(s, rest), id, size, written, ExpiryOver(rest, expiresAt, onDisk), onDisk)
  {
    if rest != [] {
      var before, op := rest[..|rest| - 1], rest[|rest| - 1];
      StaysThrough(s, before, id, size, written, expiresAt, onDisk);
      StaysThereExactly(RunFrom(s, before), op, id, size, written, ExpiryOver(before, expiresAt, onDisk), onDisk);
    }
  }

  lemma {:induction false} ExpiryExactly(rest: seq<Op>, expiresAt: nat, onDisk: nat)
    ensures ExpiryOver(rest, expiresAt, onDisk) == if Restart in rest then onDisk * SECOND else expiresAt
  {
    if rest != [] {
      ExpiryExactly(rest[..|rest| - 1], expiresAt, onDisk);
      assert rest == rest[..|rest| - 1] + [rest[|rest| - 1]];
    }
  }

  // A spilled artifact is there from then on, with its size, through every run of
  // spills, reads, prunes and restarts, until something takes it away; its expiry is
  // 72 hours after the spill, rounded down to a second by the first restart.
  lemma SpilledStaysUntilTaken(before: seq<Op>, id: Id, now: nat, size: nat, written: nat, rest: seq<Op>)
    requires var expires := now + 72 * 3600 * SECOND;
             LeavesAlone(Run(before + [Spill(id, now, size, written)]), rest, id, written, expires, expires / SECOND)
    ensures var expires := now + 72 * 3600 * SECOND;
            IsThere(Run(before + [Spill(id, now, size, written)] + rest), id, size, written,
                    if Restart in rest then expires / SECOND * SECOND else expires, expires / SECOND)
  {
    var expires := now + ARTIFACT_RETENTION;
    var spilled := before + [Spill(id, now, size, written)];
    SpillPutsItThere(before, id, now, size, written);
    RunInParts(spilled, rest);
    StaysThrough(Run(spilled), rest, id, size, written, expires, Seconds(expires));
    ExpiryExactly(rest, expires, Seconds(expires));
  }

  function StoreOfOne(id: Id, modified: nat, size: nat, expiresAt: nat): Store {
    Store(map[id := Record(expiresAt)], map[id := Dir(Some(modified), size, None)])
  }

  // Without that order of times it fails: a record that expires later than its
  // directory's age limit loses the directory and stays in the index.
  lemma AgePassCanStrandRecord(id: Id, modified: nat, late: nat, size: nat)
    requires late > 1 && size <= ARTIFACT_STORE_MAX_BYTES
    ensures var s := StoreOfOne(id, modified, size, modified + ARTIFACT_RETENTION + late);
            var now := modified + ARTIFACT_RETENTION + 1;
            var r := Prune(s, [id], now, ARTIFACT_RETENTION, ARTIFACT_STORE_MAX_BYTES);
            IndexBacked(s) && !IndexBacked(r)
  {
    var s := StoreOfOne(id, modified, size, modified + ARTIFACT_RETENTION + late);
    PruneKeepsIndexBacked(s, [id], modified + ARTIFACT_RETENTION + 1, ARTIFACT_RETENTION, ARTIFACT_STORE_MAX_BYTES);
    assert id in TooOld(s.dirs, modified + ARTIFACT_RETENTION + 1, ARTIFACT_RETENTION);
  }

  // The eviction loop has gone past the first i directories: the rest come to
  // `total`, and no shorter run fitted.
  ghost predicate CutSoFar(dirs: map<Id, Dir>, sorted: seq<Id>, max: nat, i: nat, total: nat) {
    && NoDuplicates(sorted) && i <= |sorted| && (forall id :: id in sorted ==> id in dirs)
    && total == Bytes(dirs, sorted[i..])
    && (forall k :: 0 <= k < i ==> Bytes(dirs, sorted[k..]) > max)
  }

  lemma OneMoreEvicted(dirs: map<Id, Dir>, sorted: seq<Id>, max: nat, i: nat, total: nat)
    requires CutSoFar(dirs, sorted, max, i, total) && i < |sorted| && total > max
    ensures total >= dirs[sorted[i]].size && CutSoFar(dirs, sorted, max, i + 1, total - dirs[sorted[i]].size)
    ensures sorted[i] in dirs - AsSet(sorted[..i])
    ensures AsSet(sorted[..i + 1]) == AsSet(sorted[..i]) + {sorted[i]}
  {
    LastOfCut(dirs, sorted, i + 1);
  }

  lemma CutIsLeast(dirs: map<Id, Dir>, sorted: seq<Id>, max: nat, i: nat, total: nat)
    requires CutSoFar(dirs, sorted, max, i, total) && (i == |sorted| || total <= max)
    ensures i == Cut(dirs, sorted, max)
  {
    var c := Cut(dirs, sorted, max);
    if i == |sorted| {
      assert sorted[i..] == [];
    }
    assert !(c < i) && !(i < c);
  }

  // -------------------------------------------------------------------------
  // The running store
  // -------------------------------------------------------------------------

  class Artifacts {
    var records: map<Id, Record>
    var dirs: map<Id, Dir>

    ghost function Value(): Store
      reads this
    {
      Store(records, dirs)
    }

    constructor ()
      ensures Value() == Run([])
    {
      records, dirs := map[], map[];
    }

    method RemoveExpired(now: nat)
      modifies this
      ensures Value() == Store(old(records) - Expired(old(Value()), now), old(dirs) - Expired(old(Value()), now))
    {
      var expired := Expired(Store(records, dirs), now);
      var rest := expired;
      while rest != {}
        invariant rest <= expired
        invariant records == old(records) - (expired - rest) && dirs == old(dirs) - (expired - rest)
        decreases rest
      {
        var id :| id in rest;
        records := records - {id};
        dirs := dirs - {id};
        rest := rest - {id};
      }
    }

    method RemoveOverAge(listing: seq<Id>, now: nat, retention: nat)
      requires Listed(dirs, listing)
      modifies this`dirs
      ensures dirs == old(dirs) - TooOld(old(dirs), now, retention)
    {
      var i := 0;
      while i < |listing|
        invariant i <= |listing|
        invariant dirs == old(dirs) - (TooOld(old(dirs), now, retention) * AsSet(listing[..i]))
      {
        var id := listing[i];
        assert id !in listing[..i];
        assert AsSet(listing[..i + 1]) == AsSet(listing[..i]) + {id};
        var modified := dirs[id].modified;
        if modified.Some? && modified.value <= now && now - modified.value > retention {
          dirs := dirs - {id};
        }
        i := i + 1;
      }
      assert TooOld(old(dirs), now, retention) * AsSet(listing[..i]) == TooOld(old(dirs), now, retention);
    }

    // Drop directories from the front until the rest fits.
    method EvictFrom(sorted: seq<Id>, bytes: nat, max: nat) returns (n: nat)
      requires CutSoFar(dirs, sorted, max, 0, bytes)
      modifies this
      ensures n == Cut(old(dirs), sorted, max)
      ensures records == old(records) - AsSet(sorted[..n]) && dirs == old(dirs) - AsSet(sorted[..n])
    {
      ghost var before, index := dirs, records;
      var total: nat := bytes;
      n := 0;
      while n < |sorted| && total > max
        invariant CutSoFar(before, sorted, max, n, total)
        invariant dirs == before - AsSet(sorted[..n])
        invariant records == index - AsSet(sorted[..n])
        decreases |sorted| - n
      {
        OneMoreEvicted(before, sorted, max, n, total);
        var id := sorted[n];
        total := SaturatingSub(total, dirs[id].size);
        dirs := dirs - {id};
        records := records - {id};
        n := n + 1;
      }
      CutIsLeast(before, sorted, max, n, total);
    }

    // Drop the oldest until the rest fits.
    method EvictForSize(listing: seq<Id>, max: nat)
      requires Listed(dirs, listing)
      modifies this
      ensures var gone := AsSet(Evicted(old(dirs), listing, max));
              records == old(records) - gone && dirs == old(dirs) - gone
    {
      PresentAll(dirs, listing);
      var total := Bytes(dirs, listing);
      var sorted := SortByAge(dirs, listing);
      BytesSameInAnyOrder(dirs, listing, sorted);
      MultisetNoDuplicates(listing, sorted);
      assert sorted[0..] == sorted;
      var n := EvictFrom(sorted, total, max);
    }

    method PruneWithLimits(order: seq<Id>, now: nat, retention: nat, max: nat)
      requires Listed(dirs, order)
      modifies this
      ensures Value() == Prune(old(Value()), order, now, retention, max)
    {
      RemoveExpired(now);
      var listing := Present(dirs, order);
      RemoveOverAge(listing, now, retention);
      var left := Present(dirs, order);
      EvictForSize(left, max);
      ghost var t := AfterAges(old(Value()), now, retention);
      PresentAll(t.dirs, left);
      assert Evicted(t.dirs, left, max) == Evicted(t.dirs, order, max);
    }

    // Whether the artifact is there to be read; an expired one is removed on the way.
    method Find(id: Id, now: nat) returns (found: bool)
      modifies this
      ensures Value() == ReadStep(old(Value()), id, now)
      ensures found <==> id in old(records) && now <= old(records)[id].expiresAt
    {
      found := id in records;
      if found && now > records[id].expiresAt {
        records := records - {id};
        dirs := dirs - {id};
        found := false;
      }
    }
  }
}
