/**
 A poller of the activity log while events are stamped and appended in two steps: which events it
 reads, and exactly when it reads each of them once.
 */
module ActivityPolling {
  import opened Common
  import opened Activity

  // Every event appended, in that order; what the poller has read; and how many
  // had been appended at its last poll.
  datatype Scene = Scene(log: Log, appended: seq<Event>, poller: Poller, polledAt: nat)

  datatype Turn = Write(move: Move) | Ask

  const Opening := Scene(EmptyLog, [], Poller([], 0), 0)

  function Next(s: Scene, turn: Turn): Scene
    requires s.polledAt <= |s.appended|
  {
    match turn
    case Write(move) =>
      var more := if move.Append? && move.at < |s.log.waiting| then [s.log.waiting[move.at]] else [];
      s.(log := Step(s.log, move), appended := s.appended + more)
    case Ask => s.(poller := Poll(s.poller, s.log.events), polledAt := |s.appended|)
  }

  function After(turns: seq<Turn>): (s: Scene)
    ensures s.polledAt <= |s.appended|
  {
    if turns == [] then Opening else Next(After(turns[..|turns| - 1]), turns[|turns| - 1])
  }

  // -------------------------------------------------------------------------
  // Invariant
  // -------------------------------------------------------------------------

  ghost predicate SceneInv(s: Scene) {
    && LogInv(s.log) && s.log.events == Newest(s.appended, CAPACITY)
    && Distinct(s.appended) && Apart(s.appended, s.log.waiting) && Below(s.appended, s.log.next)
    && s.polledAt <= |s.appended|
  }

  lemma PushIsNewest(appended: seq<Event>, e: Event)
    ensures Push(Newest(appended, CAPACITY), e) == Newest(appended + [e], CAPACITY)
  {
  }

  lemma StampInv(s: Scene, noted: Noted)
    requires SceneInv(s)
    ensures SceneInv(Next(s, Write(Stamp(noted))))
  {
    assert s.appended + [] == s.appended;
  }

  lemma AppendApart(appended: seq<Event>, waiting: seq<Event>, i: nat)
    requires Distinct(appended) && Distinct(waiting) && Apart(appended, waiting) && i < |waiting|
    ensures Distinct(appended + [waiting[i]]) && Apart(appended + [waiting[i]], waiting[..i] + waiting[i + 1..])
  {
    var left := waiting[..i] + waiting[i + 1..];
    forall k | 0 <= k < |left| ensures left[k] == waiting[if k < i then k else k + 1] {
    }
  }

  lemma AppendInv(s: Scene, i: nat)
    requires SceneInv(s) && i < |s.log.waiting|
    ensures SceneInv(Next(s, Write(Append(i))))
  {
    AppendKeepsInv(s.log, i);
    PushIsNewest(s.appended, s.log.waiting[i]);
    AppendApart(s.appended, s.log.waiting, i);
  }

  lemma {:induction false} InvAfter(turns: seq<Turn>)
    ensures SceneInv(After(turns))
  {
    if turns != [] {
      var s, turn := After(turns[..|turns| - 1]), turns[|turns| - 1];
      InvAfter(turns[..|turns| - 1]);
      if turn.Write? {
        if turn.move.Stamp? {
          StampInv(s, turn.move.noted);
        } else if turn.move.at < |s.log.waiting| {
          AppendInv(s, turn.move.at);
        } else {
          assert s.appended + [] == s.appended;
        }
      }
    }
  }

  // -------------------------------------------------------------------------
  // One poll
  // -------------------------------------------------------------------------

  function Batch(ring: seq<Event>, cursor: nat): seq<Event> {
    SnapshotOf(ring, EverythingAfter(cursor))
  }

  lemma {:induction false} MatchingHolds(events: seq<Event>, f: Filter)
    ensures forall e :: e in Matching(events, f) <==> e in events && Matches(e, f)
    ensures |Matching(events, f)| <= |events|
  {
    if events != [] {
      MatchingHolds(events[..|events| - 1], f);
      assert events == events[..|events| - 1] + [events[|events| - 1]];
    }
  }

  lemma BatchIsMatching(ring: seq<Event>, cursor: nat)
    requires |ring| <= CAPACITY
    ensures Batch(ring, cursor) == Matching(ring, EverythingAfter(cursor))
    ensures forall e :: e in Batch(ring, cursor) <==> e in ring && e.sequence > cursor
  {
    SnapshotIsNewestMatching(ring, EverythingAfter(cursor));
    MatchingHolds(ring, EverythingAfter(cursor));
    WholeIsNewest(Matching(ring, EverythingAfter(cursor)), CAPACITY);
  }

  // The event appended is in a poller's next batch exactly when its number is
  // above the one the poller goes on from.
  lemma AppendedIsReadExactly(l: Log, i: nat, cursor: nat)
    requires LogInv(l) && i < |l.waiting|
    ensures l.waiting[i] in Batch(Step(l, Append(i)).events, cursor) <==> l.waiting[i].sequence > cursor
  {
    var after := Step(l, Append(i)).events;
    AppendKeepsInv(l, i);
    BatchIsMatching(after, cursor);
    assert after[|after| - 1] == l.waiting[i];
  }

  lemma {:induction false} AllMatch(events: seq<Event>, f: Filter)
    requires forall i :: 0 <= i < |events| ==> Matches(events[i], f)
    ensures Matching(events, f) == events
  {
    if events != [] {
      AllMatch(events[..|events| - 1], f);
    }
  }

  lemma {:induction false} MatchingInParts(a: seq<Event>, b: seq<Event>, f: Filter)
    ensures Matching(a + b, f) == Matching(a, f) + Matching(b, f)
  {
    if b == [] {
      assert a + b == a;
    } else {
      assert (a + b)[..|a + b| - 1] == a + b[..|b| - 1];
      MatchingInParts(a, b[..|b| - 1], f);
    }
  }

  // Nothing new has left the ring, everything new is above the cursor, and
  // nothing old in the ring is.
  predicate Clean(s: Scene)
    requires s.polledAt <= |s.appended|
  {
    && |s.appended| - s.polledAt <= CAPACITY
    && (forall i :: s.polledAt <= i < |s.appended| ==> s.appended[i].sequence > s.poller.cursor)
    && (forall i :: SaturatingSub(|s.appended|, CAPACITY) <= i < s.polledAt ==>
          s.appended[i].sequence <= s.poller.cursor)
  }

  lemma {:induction false} NoneMatch(events: seq<Event>, f: Filter)
    requires forall i :: 0 <= i < |events| ==> !Matches(events[i], f)
    ensures Matching(events, f) == []
  {
    if events != [] {
      NoneMatch(events[..|events| - 1], f);
    }
  }

  lemma SeenAndUnseen(seen: seq<Event>, unseen: seq<Event>, cursor: nat)
    requires |seen + unseen| <= CAPACITY
    requires forall i :: 0 <= i < |seen| ==> seen[i].sequence <= cursor
    requires forall i :: 0 <= i < |unseen| ==> unseen[i].sequence > cursor
    ensures Batch(seen + unseen, cursor) == unseen
  {
    BatchIsMatching(seen + unseen, cursor);
    MatchingInParts(seen, unseen, EverythingAfter(cursor));
    NoneMatch(seen, EverythingAfter(cursor));
    AllMatch(unseen, EverythingAfter(cursor));
  }

  lemma CleanBatch(s: Scene)
    requires SceneInv(s) && Clean(s)
    ensures Batch(s.log.events, s.poller.cursor) == s.appended[s.polledAt..]
  {
    var from := SaturatingSub(|s.appended|, CAPACITY);
    assert s.log.events == s.appended[from..s.polledAt] + s.appended[s.polledAt..];
    SeenAndUnseen(s.appended[from..s.polledAt], s.appended[s.polledAt..], s.poller.cursor);
  }

  // -------------------------------------------------------------------------
  // What cannot be made good
  // -------------------------------------------------------------------------

  // An event was passed over and can never be read: it is not above the cursor,
  // or it has left the ring.
  ghost predicate Missed(s: Scene, k: nat) {
    && k < s.polledAt <= |s.appended| && s.appended[k] !in s.poller.read
    && (s.appended[k].sequence <= s.poller.cursor || k < |s.appended| - CAPACITY)
  }

  ghost predicate ReadTwice(s: Scene, i: nat, j: nat) {
    i < j < |s.poller.read| && s.poller.read[i] == s.poller.read[j]
  }

  ghost predicate Spoiled(s: Scene) {
    (exists k: nat :: Missed(s, k)) || exists i: nat, j: nat :: ReadTwice(s, i, j)
  }

  lemma GoneFromRing(s: Scene, k: nat)
    requires SceneInv(s) && k < |s.appended| - CAPACITY
    ensures s.appended[k] !in s.log.events
  {
    var from := SaturatingSub(|s.appended|, CAPACITY);
    forall i | 0 <= i < |s.log.events| ensures s.log.events[i] != s.appended[k] {
      assert s.log.events[i] == s.appended[from + i];
    }
  }

  lemma CursorOnlyGrows(p: Poller, ring: seq<Event>)
    requires |ring| <= CAPACITY
    ensures Poll(p, ring).cursor >= p.cursor && Poll(p, ring).read == p.read + Batch(ring, p.cursor)
  {
    BatchIsMatching(ring, p.cursor);
    var batch := Batch(ring, p.cursor);
    if batch != [] {
      assert batch[|batch| - 1] in batch;
    }
  }

  lemma MissedStays(s: Scene, turn: Turn, k: nat)
    requires SceneInv(s) && Missed(s, k)
    ensures Missed(Next(s, turn), k)
  {
    if turn.Ask? {
      CursorOnlyGrows(s.poller, s.log.events);
      BatchIsMatching(s.log.events, s.poller.cursor);
      if k < |s.appended| - CAPACITY {
        GoneFromRing(s, k);
      }
      assert s.appended[k] !in Batch(s.log.events, s.poller.cursor);
    }
  }

  lemma SpoiledStays(s: Scene, turn: Turn)
    requires SceneInv(s) && Spoiled(s)
    ensures Spoiled(Next(s, turn))
  {
    if k: nat :| Missed(s, k) {
      MissedStays(s, turn, k);
    } else {
      var i: nat, j: nat :| ReadTwice(s, i, j);
      CursorOnlyGrows(s.poller, s.log.events);
      assert ReadTwice(Next(s, turn), i, j);
    }
  }

  ghost predicate ReadExactly(s: Scene)
    requires s.polledAt <= |s.appended|
  {
    s.poller.read == s.appended[..s.polledAt]
  }

  lemma MissedIsNotExact(s: Scene, k: nat)
    requires Missed(s, k)
    ensures !ReadExactly(s)
  {
    assert s.appended[..s.polledAt][k] == s.appended[k];
  }

  lemma TwiceIsNotExact(s: Scene, i: nat, j: nat)
    requires SceneInv(s) && ReadTwice(s, i, j)
    ensures !ReadExactly(s)
  {
    var seen := s.appended[..s.polledAt];
    assert forall k | 0 <= k < |seen| :: seen[k] == s.appended[k];
  }

  lemma SpoiledIsNotExact(s: Scene)
    requires SceneInv(s) && Spoiled(s)
    ensures !ReadExactly(s)
  {
    if k: nat :| Missed(s, k) {
      MissedIsNotExact(s, k);
    } else {
      var i: nat, j: nat :| ReadTwice(s, i, j);
      TwiceIsNotExact(s, i, j);
    }
  }

  lemma MissedBy(s: Scene, k: nat)
    requires SceneInv(s) && ReadExactly(s) && s.polledAt <= k < |s.appended|
    requires s.appended[k].sequence <= s.poller.cursor || k < |s.appended| - CAPACITY
    ensures Missed(Next(s, Ask), k)
  {
    CursorOnlyGrows(s.poller, s.log.events);
    BatchIsMatching(s.log.events, s.poller.cursor);
    if k < |s.appended| - CAPACITY {
      GoneFromRing(s, k);
    }
    assert forall i :: 0 <= i < s.polledAt ==> s.appended[i].sequence != s.appended[k].sequence;
  }

  lemma TwiceIn(read: seq<Event>, batch: seq<Event>, e: Event, k: nat) returns (j: nat)
    requires k < |read| && read[k] == e && e in batch
    ensures k < j < |read + batch| && (read + batch)[k] == (read + batch)[j]
  {
    var i: nat :| i < |batch| && batch[i] == e;
    j := |read| + i;
  }

  lemma InRing(s: Scene, k: nat)
    requires SceneInv(s) && SaturatingSub(|s.appended|, CAPACITY) <= k < |s.appended|
    ensures s.appended[k] in s.log.events
  {
    assert s.log.events[k - SaturatingSub(|s.appended|, CAPACITY)] == s.appended[k];
  }

  lemma ReadAgain(s: Scene, k: nat)
    requires SceneInv(s) && ReadExactly(s) && SaturatingSub(|s.appended|, CAPACITY) <= k < s.polledAt
    requires s.appended[k].sequence > s.poller.cursor
    ensures Spoiled(Next(s, Ask))
  {
    InRing(s, k);
    CursorOnlyGrows(s.poller, s.log.events);
    BatchIsMatching(s.log.events, s.poller.cursor);
    var j := TwiceIn(s.poller.read, Batch(s.log.events, s.poller.cursor), s.appended[k], k);
    assert ReadTwice(Next(s, Ask), k, j);
  }

  lemma UncleanSpoils(s: Scene)
    requires SceneInv(s) && ReadExactly(s) && !Clean(s)
    ensures Spoiled(Next(s, Ask))
  {
    if |s.appended| - s.polledAt > CAPACITY {
      MissedBy(s, s.polledAt);
    } else if k: nat :| s.polledAt <= k < |s.appended| && s.appended[k].sequence <= s.poller.cursor {
      MissedBy(s, k);
    } else {
      var k: nat :| SaturatingSub(|s.appended|, CAPACITY) <= k < s.polledAt && s.appended[k].sequence > s.poller.cursor;
      ReadAgain(s, k);
    }
  }

  lemma CleanReads(s: Scene)
    requires SceneInv(s) && ReadExactly(s) && Clean(s)
    ensures ReadExactly(Next(s, Ask))
  {
    CleanBatch(s);
    CursorOnlyGrows(s.poller, s.log.events);
    assert s.appended[..s.polledAt] + s.appended[s.polledAt..] == s.appended[..|s.appended|];
  }

  // -------------------------------------------------------------------------
  // Runs
  // -------------------------------------------------------------------------

  predicate AlwaysClean(turns: seq<Turn>) {
    turns == []
    || (AlwaysClean(turns[..|turns| - 1]) && (turns[|turns| - 1].Ask? ==> Clean(After(turns[..|turns| - 1]))))
  }

  lemma WriteKeepsReadExactly(s: Scene, move: Move)
    requires SceneInv(s) && ReadExactly(s)
    ensures ReadExactly(Next(s, Write(move)))
  {
    var after := Next(s, Write(move));
    assert after.appended[..s.polledAt] == s.appended[..s.polledAt];
  }

  lemma {:induction false} CleanOrSpoiled(turns: seq<Turn>)
    ensures if AlwaysClean(turns) then ReadExactly(After(turns)) else Spoiled(After(turns))
  {
    if turns != [] {
      var before, turn := turns[..|turns| - 1], turns[|turns| - 1];
      var s := After(before);
      InvAfter(before);
      CleanOrSpoiled(before);
      if !AlwaysClean(before) {
        SpoiledStays(s, turn);
      } else if turn.Write? {
        WriteKeepsReadExactly(s, turn.move);
      } else if Clean(s) {
        CleanReads(s);
      } else {
        UncleanSpoils(s);
      }
    }
  }

  // Over every run of stamps, appends and polls: as of its last poll the poller
  // has read every event appended once and in order, exactly when every poll so
  // far was clean. No later poll makes a miss or a second reading good.
  lemma PollerReadsEachOnceExactly(turns: seq<Turn>)
    ensures ReadExactly(After(turns)) <==> AlwaysClean(turns)
  {
    InvAfter(turns);
    CleanOrSpoiled(turns);
    if !AlwaysClean(turns) {
      SpoiledIsNotExact(After(turns));
    }
  }

  // A run whose events are appended in the order of their numbers is clean
  // exactly when no more than 500 come between polls.
  predicate NeverTooMany(turns: seq<Turn>) {
    turns == []
    || (NeverTooMany(turns[..|turns| - 1])
        && (turns[|turns| - 1].Ask? ==>
              |After(turns[..|turns| - 1]).appended| - After(turns[..|turns| - 1]).polledAt <= CAPACITY))
  }

  predicate Numbered(events: seq<Event>) {
    forall i :: 0 <= i < |events| ==> events[i].sequence >= 1
  }

  predicate CursorIsLastRead(p: Poller) {
    p.cursor == if p.read == [] then 0 else p.read[|p.read| - 1].sequence
  }

  lemma {:induction false} NumbersAndCursor(turns: seq<Turn>)
    ensures var s := After(turns);
            s.log.next >= 1 && Numbered(s.appended) && Numbered(s.log.waiting) && CursorIsLastRead(s.poller)
  {
    if turns != [] {
      NumbersAndCursor(turns[..|turns| - 1]);
    }
  }

  lemma InOrderIsClean(s: Scene)
    requires SceneInv(s) && ReadExactly(s) && CursorIsLastRead(s.poller)
    requires Numbered(s.appended) && Ascending(s.appended)
    ensures Clean(s) <==> |s.appended| - s.polledAt <= CAPACITY
  {
    if s.polledAt > 0 {
      assert s.poller.cursor == s.appended[s.polledAt - 1].sequence;
    }
  }

  lemma AppendedOnlyGrows(s: Scene, turn: Turn)
    requires s.polledAt <= |s.appended| && Ascending(Next(s, turn).appended)
    ensures Ascending(s.appended)
  {
    assert s.appended <= Next(s, turn).appended;
    forall i, j | 0 <= i < j < |s.appended| ensures s.appended[i].sequence < s.appended[j].sequence {
      assert Next(s, turn).appended[i] == s.appended[i] && Next(s, turn).appended[j] == s.appended[j];
    }
  }

  lemma {:induction false} InOrderRunsExactly(turns: seq<Turn>)
    requires Ascending(After(turns).appended)
    ensures AlwaysClean(turns) <==> NeverTooMany(turns)
  {
    if turns != [] {
      var before, turn := turns[..|turns| - 1], turns[|turns| - 1];
      AppendedOnlyGrows(After(before), turn);
      InOrderRunsExactly(before);
      InvAfter(before);
      CleanOrSpoiled(before);
      NumbersAndCursor(before);
      if AlwaysClean(before) {
        InOrderIsClean(After(before));
      }
    }
  }

  lemma FirstReading(one: Event, two: Event)
    requires one.sequence == 1 && two.sequence == 2
    ensures Poll(Poller([], 0), [two, one]) == Poller([two, one], 1)
  {
    SeenAndUnseen([], [two, one], 0);
    assert [] + [two, one] == [two, one];
  }

  lemma SecondReading(one: Event, two: Event)
    requires one.sequence == 1 && two.sequence == 2
    ensures Poll(Poller([two, one], 1), [two, one]).read == [two, one, two]
  {
    BatchIsMatching([two, one], 1);
    MatchingInParts([two], [one], EverythingAfter(1));
    MatchingOfOne(two, EverythingAfter(1));
    MatchingOfOne(one, EverythingAfter(1));
    assert [two] + [one] == [two, one] && [two, one] + [two] == [two, one, two];
  }

  // The overtaken event appended before the poll sets the cursor back, and the
  // next poll reads the overtaking event a second time.
  lemma OvertakingEventIsReadTwice(first: Noted, second: Noted)
    ensures var one, two := Event(1, first), Event(2, second);
            var ring := Step(Run([Stamp(first), Stamp(second), Append(1)]), Append(0)).events;
            Poll(Poll(Poller([], 0), ring), ring).read == [two, one, two]
  {
    var one, two := Event(1, first), Event(2, second);
    OvertakingRun(first, second);
    assert [two] + [one] == [two, one];
    FirstReading(one, two);
    SecondReading(one, two);
  }
}
