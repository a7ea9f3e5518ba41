/**
 The activity log: a ring of the newest events, stamped in order, read by pollers that ask for
 what came after the last event they saw.
 */
module Activity {
  import opened Common

  const CAPACITY: nat := 500

  datatype Outcome = Success | Error | Cancelled

  // What a caller hands in; everything but the outcome is `detail`.
  datatype Noted = Noted(outcome: Outcome, detail: string)

  datatype Event = Event(sequence: nat, noted: Noted)

  datatype Filter = Filter(afterSequence: nat, failuresOnly: bool, limit: nat)

  // -------------------------------------------------------------------------
  // Recording
  // -------------------------------------------------------------------------

  function Push(events: seq<Event>, e: Event): seq<Event> {
    (if |events| == CAPACITY then events[1..] else events) + [e]
  }

  // Recorded one after the other, the first event gets number 1.
  function RingOf(history: seq<Noted>): seq<Event> {
    if history == [] then []
    else Push(RingOf(history[..|history| - 1]), Event(|history|, history[|history| - 1]))
  }

  function Stamped(history: seq<Noted>): seq<Event> {
    seq(|history|, i requires 0 <= i < |history| => Event(i + 1, history[i]))
  }

  function Newest<T>(s: seq<T>, n: nat): seq<T> {
    s[SaturatingSub(|s|, n)..]
  }

  // The ring is the newest 500 of everything recorded, without a gap.
  lemma {:induction false} RingIsNewest(history: seq<Noted>)
    ensures RingOf(history) == Newest(Stamped(history), CAPACITY)
  {
    if history != [] {
      var before := history[..|history| - 1];
      RingIsNewest(before);
      assert Stamped(history) == Stamped(before) + [Event(|history|, history[|history| - 1])];
    }
  }

  // -------------------------------------------------------------------------
  // Reading
  // -------------------------------------------------------------------------

  predicate Matches(e: Event, f: Filter) {
    e.sequence > f.afterSequence && (!f.failuresOnly || e.noted.outcome != Success)
  }

  function Matching(events: seq<Event>, f: Filter): seq<Event> {
    if events == [] then []
    else Matching(events[..|events| - 1], f)
         + (if Matches(events[|events| - 1], f) then [events[|events| - 1]] else [])
  }

  function Reverse<T>(s: seq<T>): seq<T> {
    seq(|s|, i requires 0 <= i < |s| => s[|s| - 1 - i])
  }

  function LimitOf(f: Filter): nat {
    if f.limit == 0 then CAPACITY else Min(f.limit, CAPACITY)
  }

  // Filtered, turned round, cut to the limit and turned back.
  function SnapshotOf(events: seq<Event>, f: Filter): seq<Event> {
    var turned := Reverse(Matching(events, f));
    Reverse(turned[..Min(LimitOf(f), |turned|)])
  }

  // The snapshot is the newest matching events, as many as the limit allows, in
  // the order they were recorded.
  lemma SnapshotIsNewestMatching(events: seq<Event>, f: Filter)
    ensures SnapshotOf(events, f) == Newest(Matching(events, f), LimitOf(f))
  {
  }

  function MatchesFrom(events: seq<Event>, i: nat, f: Filter): nat
    requires i <= |events|
    decreases |events| - i
  {
    if i == |events| then 0 else (if Matches(events[i], f) then 1 else 0) + MatchesFrom(events, i + 1, f)
  }

  lemma {:induction false} MatchesFromDropsLast(events: seq<Event>, i: nat, f: Filter)
    requires i < |events|
    ensures MatchesFrom(events, i, f) ==
            MatchesFrom(events[..|events| - 1], i, f) + (if Matches(events[|events| - 1], f) then 1 else 0)
    decreases |events| - i
  {
    if i < |events| - 1 {
      MatchesFromDropsLast(events, i + 1, f);
    }
  }

  // The place of event i among the matching ones, counted from the end.
  lemma {:induction false} PlaceAmongMatching(events: seq<Event>, i: nat, f: Filter)
    requires i < |events|
    ensures var m, newer := Matching(events, f), MatchesFrom(events, i + 1, f);
            newer <= |m| && (Matches(events[i], f) ==> newer < |m| && m[|m| - 1 - newer] == events[i])
  {
    var n := |events| - 1;
    var before := events[..n];
    if i == n {
    } else {
      PlaceAmongMatching(before, i, f);
      assert before[i] == events[i];
      if i + 1 < |events| {
        MatchesFromDropsLast(events, i + 1, f);
      }
    }
  }

  predicate Ascending(events: seq<Event>) {
    forall i, j :: 0 <= i < j < |events| ==> events[i].sequence < events[j].sequence
  }

  lemma {:induction false} MatchingKeepsOrder(events: seq<Event>, f: Filter)
    requires Ascending(events)
    ensures Ascending(Matching(events, f))
    ensures forall e :: e in Matching(events, f) ==> e in events && Matches(e, f)
  {
    if events != [] {
      var before := events[..|events| - 1];
      MatchingKeepsOrder(before, f);
      var m := Matching(before, f);
      forall k | 0 <= k < |m| ensures m[k].sequence < events[|events| - 1].sequence {
        assert m[k] in before;
        var j :| 0 <= j < |before| && before[j] == m[k];
        assert events[j] == m[k];
      }
    }
  }

  lemma NewestHolds(m: seq<Event>, n: nat, newer: nat)
    requires newer < |m| && Ascending(m)
    ensures m[|m| - 1 - newer] in Newest(m, n) <==> newer < n
  {
    var e, left := m[|m| - 1 - newer], Newest(m, n);
    if newer < n {
      assert left[|left| - 1 - newer] == e;
    }
    if e in left {
      var q :| 0 <= q < |left| && left[q] == e;
      assert m[|m| - |left| + q] == e;
    }
  }

  lemma RecentHolds(s: seq<Event>, from: nat, i: nat)
    requires i < |s| && from <= |s| && Ascending(s)
    ensures Ascending(s[from..])
    ensures s[i] in s[from..] <==> i >= from
  {
    if i >= from {
      assert s[from..][i - from] == s[i];
    }
    if s[i] in s[from..] {
      var j :| 0 <= j < |s[from..]| && s[from..][j] == s[i];
      assert s[from + j] == s[i];
    }
  }

  lemma PlaceInSuffix(s: seq<Event>, from: nat, f: Filter, i: nat)
    requires from <= i < |s| && Matches(s[i], f)
    ensures var m, newer := Matching(s[from..], f), MatchesFrom(s, i + 1, f);
            newer < |m| && m[|m| - 1 - newer] == s[i]
  {
    MatchesInSuffix(s, from, i + 1, f);
    PlaceAmongMatching(s[from..], i - from, f);
  }

  lemma ShownInSuffix(s: seq<Event>, from: nat, f: Filter, i: nat)
    requires from <= i < |s| && Ascending(s) && Matches(s[i], f)
    ensures s[i] in Newest(Matching(s[from..], f), LimitOf(f)) <==> MatchesFrom(s, i + 1, f) < LimitOf(f)
  {
    RecentHolds(s, from, i);
    MatchingKeepsOrder(s[from..], f);
    PlaceInSuffix(s, from, f, i);
    NewestHolds(Matching(s[from..], f), LimitOf(f), MatchesFrom(s, i + 1, f));
  }

  lemma OnlyMatchingShown(s: seq<Event>, from: nat, f: Filter, i: nat)
    requires from <= |s| && i < |s| && Ascending(s)
    requires s[i] in Newest(Matching(s[from..], f), LimitOf(f))
    ensures i >= from && Matches(s[i], f)
  {
    RecentHolds(s, from, i);
    MatchingKeepsOrder(s[from..], f);
    assert s[i] in Matching(s[from..], f);
  }

  // Of everything recorded, a snapshot shows event i exactly when it matches, is
  // among the newest 500, and fewer than `limit` newer ones match.
  lemma SnapshotShowsExactly(history: seq<Noted>, f: Filter, i: nat)
    requires i < |history|
    ensures var s := Stamped(history);
            s[i] in SnapshotOf(RingOf(history), f) <==>
              i >= SaturatingSub(|history|, CAPACITY) && Matches(s[i], f) && MatchesFrom(s, i + 1, f) < LimitOf(f)
  {
    var s, from := Stamped(history), SaturatingSub(|history|, CAPACITY);
    RingIsNewest(history);
    SnapshotIsNewestMatching(RingOf(history), f);
    if s[i] in Newest(Matching(s[from..], f), LimitOf(f)) {
      OnlyMatchingShown(s, from, f, i);
    }
    if i >= from && Matches(s[i], f) {
      ShownInSuffix(s, from, f, i);
    }
  }

  // Of what was recorded, the failures from position i on.
  function FailuresFrom(history: seq<Noted>, i: nat): nat
    requires i <= |history|
    decreases |history| - i
  {
    if i == |history| then 0
    else (if history[i].outcome == Error || history[i].outcome == Cancelled then 1 else 0)
         + FailuresFrom(history, i + 1)
  }

  lemma {:induction false} NewerMatchesAreFailures(history: seq<Noted>, f: Filter, i: nat)
    requires f.afterSequence <= i <= |history|
    ensures MatchesFrom(Stamped(history), i, f) ==
            if f.failuresOnly then FailuresFrom(history, i) else |history| - i
    decreases |history| - i
  {
    if i < |history| {
      NewerMatchesAreFailures(history, f, i + 1);
    }
  }

  // A snapshot of failures shows an event exactly when it failed or was cancelled,
  // came after the one asked for, is among the newest 500 of all, and has fewer
  // failures after it than the limit, where no limit means 500.
  lemma FailuresShownExactly(history: seq<Noted>, afterSequence: nat, limit: nat, i: nat)
    requires i < |history|
    ensures Stamped(history)[i] in SnapshotOf(RingOf(history), Filter(afterSequence, true, limit)) <==>
              && (history[i].outcome == Error || history[i].outcome == Cancelled)
              && i + 1 > afterSequence && i + 500 >= |history|
              && FailuresFrom(history, i + 1) < (if 0 < limit < 500 then limit else 500)
  {
    var f := Filter(afterSequence, true, limit);
    SnapshotShowsExactly(history, f, i);
    if i + 1 > afterSequence {
      NewerMatchesAreFailures(history, f, i + 1);
    }
  }

  lemma {:induction false} MatchesInSuffix(events: seq<Event>, from: nat, i: nat, f: Filter)
    requires from <= i <= |events|
    ensures MatchesFrom(events[from..], i - from, f) == MatchesFrom(events, i, f)
    decreases |events| - i
  {
    if i < |events| {
      MatchesInSuffix(events, from, i + 1, f);
    }
  }

  // -------------------------------------------------------------------------
  // Polling
  // -------------------------------------------------------------------------

  function EverythingAfter(k: nat): Filter {
    Filter(k, false, 0)
  }

  lemma OneMoreMatching(s: seq<Event>, from: nat, n: nat, f: Filter)
    requires from < n <= |s|
    ensures Matching(s[from..n], f) == Matching(s[from..n - 1], f) + (if Matches(s[n - 1], f) then [s[n - 1]] else [])
  {
    var events := s[from..n];
    assert events[..|events| - 1] == s[from..n - 1] && events[|events| - 1] == s[n - 1];
  }

  lemma SliceGrows<T>(s: seq<T>, from: nat, n: nat)
    requires from < n <= |s|
    ensures s[from..n] == s[from..n - 1] + [s[n - 1]]
  {
  }

  lemma {:induction false} MatchingIsSuffix(s: seq<Event>, from: nat, k: nat, n: nat)
    requires from <= n <= |s| && k <= |s| && forall i :: 0 <= i < |s| ==> s[i].sequence == i + 1
    ensures Matching(s[from..n], EverythingAfter(k)) ==
            if k <= from then s[from..n] else if k <= n then s[k..n] else []
  {
    if n > from {
      MatchingIsSuffix(s, from, k, n - 1);
      OneMoreMatching(s, from, n, EverythingAfter(k));
      SliceGrows(s, if k <= from then from else if k < n then k else n - 1, n);
    }
  }

  lemma NewestOfTail<T>(s: seq<T>, k: nat, n: nat)
    requires k <= |s|
    ensures Newest(s[k..], n) == if |s| <= n || k >= |s| - n then s[k..] else s[|s| - n..]
  {
  }

  lemma WholeIsNewest<T>(s: seq<T>, n: nat)
    requires |s| <= n
    ensures Newest(s, n) == s
  {
  }

  lemma MatchingInRecent(history: seq<Noted>, k: nat)
    requires k <= |history|
    ensures Matching(Newest(Stamped(history), CAPACITY), EverythingAfter(k)) == Newest(Stamped(history)[k..], CAPACITY)
  {
    var s, n := Stamped(history), |history|;
    var from := SaturatingSub(n, CAPACITY);
    assert s[from..] == s[from..n] && s[k..n] == s[k..];
    MatchingIsSuffix(s, from, k, n);
    NewestOfTail(s, k, CAPACITY);
  }

  // Asking for what came after event k gives all of it that is still there.
  lemma PollGives(history: seq<Noted>, k: nat)
    requires k <= |history|
    ensures SnapshotOf(RingOf(history), EverythingAfter(k)) == Newest(Stamped(history)[k..], CAPACITY)
  {
    RingIsNewest(history);
    MatchingInRecent(history, k);
    SnapshotIsNewestMatching(RingOf(history), EverythingAfter(k));
    WholeIsNewest(Newest(Stamped(history)[k..], CAPACITY), CAPACITY);
  }

  // What a poller holds: all it has read so far, and where it goes on.
  datatype Poller = Poller(read: seq<Event>, cursor: nat)

  function Poll(p: Poller, ring: seq<Event>): Poller {
    var batch := SnapshotOf(ring, EverythingAfter(p.cursor));
    if batch == [] then p else Poller(p.read + batch, batch[|batch| - 1].sequence)
  }

  // One poll after each round of recorded events.
  function AfterRounds(rounds: seq<seq<Noted>>): Poller {
    if rounds == [] then Poller([], 0)
    else Poll(AfterRounds(rounds[..|rounds| - 1]), RingOf(Flatten(rounds)))
  }

  predicate NoneTooLong(rounds: seq<seq<Noted>>) {
    forall i :: 0 <= i < |rounds| ==> |rounds[i]| <= CAPACITY
  }

  lemma OnePoll(p: Poller, before: seq<Noted>, round: seq<Noted>)
    requires p.cursor == |before|
    ensures var after := Poll(p, RingOf(before + round));
            && after.cursor == |before + round|
            && after.read == p.read + Newest(Stamped(before + round)[|before|..], CAPACITY)
  {
    PollGives(before + round, |before|);
  }

  lemma {:induction false} CursorIsAtTheEnd(rounds: seq<seq<Noted>>)
    ensures AfterRounds(rounds).cursor == |Flatten(rounds)|
  {
    if rounds != [] {
      var n := |rounds| - 1;
      CursorIsAtTheEnd(rounds[..n]);
      OnePoll(AfterRounds(rounds[..n]), Flatten(rounds[..n]), rounds[n]);
    }
  }

  lemma LastRoundRead(rounds: seq<seq<Noted>>)
    requires rounds != []
    ensures var before, round := Flatten(rounds[..|rounds| - 1]), rounds[|rounds| - 1];
            AfterRounds(rounds).read ==
            AfterRounds(rounds[..|rounds| - 1]).read + Newest(Stamped(before + round)[|before|..], CAPACITY)
  {
    var n := |rounds| - 1;
    CursorIsAtTheEnd(rounds[..n]);
    OnePoll(AfterRounds(rounds[..n]), Flatten(rounds[..n]), rounds[n]);
  }

  lemma LastRoundDecides(read: seq<Event>, before: seq<Event>, round: seq<Event>)
    requires |read| <= |before|
    ensures read + Newest(round, CAPACITY) == before + round <==> read == before && |round| <= CAPACITY
    ensures |read + Newest(round, CAPACITY)| <= |before + round|
  {
    var a, b := read + Newest(round, CAPACITY), before + round;
    if |round| <= CAPACITY && a == b {
      assert Newest(round, CAPACITY) == round;
      assert a[..|read|] == read && b[..|before|] == before;
    }
  }

  lemma StampedInParts(before: seq<Noted>, round: seq<Noted>)
    ensures Stamped(before + round) == Stamped(before) + Stamped(before + round)[|before|..]
  {
  }

  lemma LastTooLong(rounds: seq<seq<Noted>>)
    requires rounds != []
    ensures NoneTooLong(rounds) <==> NoneTooLong(rounds[..|rounds| - 1]) && |rounds[|rounds| - 1]| <= CAPACITY
  {
  }

  // The poller reads every event once and in order exactly when no more than 500
  // came between any two polls.
  lemma {:induction false} PollerReadsEverythingExactly(rounds: seq<seq<Noted>>)
    ensures AfterRounds(rounds).read == Stamped(Flatten(rounds)) <==> NoneTooLong(rounds)
    ensures |AfterRounds(rounds).read| <= |Flatten(rounds)|
  {
    if rounds != [] {
      var before, round := Flatten(rounds[..|rounds| - 1]), rounds[|rounds| - 1];
      PollerReadsEverythingExactly(rounds[..|rounds| - 1]);
      LastRoundRead(rounds);
      StampedInParts(before, round);
      LastRoundDecides(AfterRounds(rounds[..|rounds| - 1]).read, Stamped(before), Stamped(before + round)[|before|..]);
      LastTooLong(rounds);
    }
  }

  class ActivityStore {
    var nextSequence: nat
    var events: seq<Event>
    ghost var history: seq<Noted>

    ghost predicate Valid()
      reads this
    {
      nextSequence == |history| + 1 && events == RingOf(history)
    }

    constructor ()
      ensures Valid() && history == []
    {
      nextSequence := 1;
      events := [];
      history := [];
    }

    method Record(noted: Noted)
      requires Valid()
      modifies this
      ensures Valid() && history == old(history) + [noted]
    {
      var event := Event(nextSequence, noted);
      nextSequence := nextSequence + 1;
      if |events| == CAPACITY {
        events := events[1..];
      }
      events := events + [event];
      history := history + [noted];
    }

    method Snapshot(filter: Filter) returns (seen: seq<Event>)
      requires Valid()
      ensures seen == Newest(Matching(Newest(Stamped(history), CAPACITY), filter), LimitOf(filter))
    {
      RingIsNewest(history);
      SnapshotIsNewestMatching(events, filter);
      seen := SnapshotOf(events, filter);
    }
  }

  // -------------------------------------------------------------------------
  // Recording in two steps
  // -------------------------------------------------------------------------

  // The number is taken before the lock is, so another event may be appended
  // between the two.
  datatype Log = Log(next: nat, events: seq<Event>, waiting: seq<Event>)

  datatype Move = Stamp(noted: Noted) | Append(at: nat)

  const EmptyLog := Log(1, [], [])

  function Step(l: Log, m: Move): Log {
    match m
    case Stamp(noted) => l.(next := l.next + 1, waiting := l.waiting + [Event(l.next, noted)])
    case Append(i) =>
      if i < |l.waiting|
      then l.(events := Push(l.events, l.waiting[i]), waiting := l.waiting[..i] + l.waiting[i + 1..])
      else l
  }

  function Run(moves: seq<Move>): Log {
    if moves == [] then EmptyLog else Step(Run(moves[..|moves| - 1]), moves[|moves| - 1])
  }

  ghost predicate Distinct(events: seq<Event>) {
    forall i, j :: 0 <= i < j < |events| ==> events[i].sequence != events[j].sequence
  }

  ghost predicate Apart(a: seq<Event>, b: seq<Event>) {
    forall i, j :: 0 <= i < |a| && 0 <= j < |b| ==> a[i].sequence != b[j].sequence
  }

  ghost predicate Below(events: seq<Event>, next: nat) {
    forall i :: 0 <= i < |events| ==> events[i].sequence < next
  }

  ghost predicate LogInv(l: Log) {
    && |l.events| <= CAPACITY && Distinct(l.events) && Distinct(l.waiting) && Apart(l.events, l.waiting)
    && Below(l.events, l.next) && Below(l.waiting, l.next)
  }

  lemma AppendKeepsInv(l: Log, i: nat)
    requires LogInv(l) && i < |l.waiting|
    ensures LogInv(Step(l, Append(i)))
  {
    var left := l.waiting[..i] + l.waiting[i + 1..];
    forall k | 0 <= k < |left|
      ensures left[k] == l.waiting[if k < i then k else k + 1]
    {
    }
  }

  // However stamping and appending interleave, no number is used twice and the
  // ring never grows past its size.
  lemma {:induction false} NumbersStayDistinct(moves: seq<Move>)
    ensures LogInv(Run(moves))
  {
    if moves != [] {
      NumbersStayDistinct(moves[..|moves| - 1]);
      var l, m := Run(moves[..|moves| - 1]), moves[|moves| - 1];
      if m.Append? && m.at < |l.waiting| {
        AppendKeepsInv(l, m.at);
      }
    }
  }

  lemma {:induction false} AscendingWithLast(events: seq<Event>, e: Event)
    requires Ascending(events)
    ensures Ascending(events + [e]) <==> events == [] || events[|events| - 1].sequence < e.sequence
  {
    var all := events + [e];
    if events != [] {
      assert all[|events| - 1] == events[|events| - 1] && all[|events|] == e;
      if events[|events| - 1].sequence < e.sequence {
        forall i, j | 0 <= i < j < |all| ensures all[i].sequence < all[j].sequence {
          assert i < |events| - 1 ==> events[i].sequence < events[|events| - 1].sequence;
        }
      }
    }
  }

  // The ring stays in order exactly when the event appended was not overtaken.
  lemma OrderKeptExactly(l: Log, i: nat)
    requires Ascending(l.events) && i < |l.waiting|
    ensures Ascending(Step(l, Append(i)).events) <==>
            l.events == [] || l.events[|l.events| - 1].sequence < l.waiting[i].sequence
  {
    var room := if |l.events| == CAPACITY then l.events[1..] else l.events;
    assert Ascending(room) by {
      assert forall k | 0 <= k < |room| :: room[k] == l.events[|l.events| - |room| + k];
    }
    AscendingWithLast(room, l.waiting[i]);
  }

  lemma OvertakingRun(first: Noted, second: Noted)
    ensures Run([Stamp(first), Stamp(second), Append(1)]) == Log(3, [Event(2, second)], [Event(1, first)])
  {
    var moves := [Stamp(first), Stamp(second), Append(1)];
    assert moves[..2] == [Stamp(first), Stamp(second)] && moves[..2][..1] == [Stamp(first)];
    assert moves[..2][..1][..0] == [];
    var one, two := Event(1, first), Event(2, second);
    assert Run(moves[..2][..1]) == Log(2, [], [one]);
    assert Run(moves[..2]) == Log(3, [], [one, two]);
    assert [one, two][..1] + [one, two][2..] == [one];
  }

  lemma MatchingOfOne(e: Event, f: Filter)
    ensures Matching([e], f) == if Matches(e, f) then [e] else []
  {
    assert [e][..0] == [];
  }

  lemma MatchingOfTwo(a: Event, b: Event, f: Filter)
    requires !Matches(a, f) && !Matches(b, f)
    ensures Matching([a, b], f) == []
  {
    assert [a, b][..1] == [a];
    MatchingOfOne(a, f);
  }

  // A poller that reads the overtaking event before the overtaken one is
  // appended goes on after it, and never reads the overtaken one.
  lemma OvertakenEventIsMissed(first: Noted, second: Noted)
    ensures var early := Run([Stamp(first), Stamp(second), Append(1)]);
            var late := Step(early, Append(0));
            var p := Poll(Poller([], 0), early.events);
            && Event(1, first) in late.events
            && p.read == [Event(2, second)] && Poll(p, late.events) == p
  {
    var one, two := Event(1, first), Event(2, second);
    OvertakingRun(first, second);
    MatchingOfOne(two, EverythingAfter(0));
    SnapshotIsNewestMatching([two], EverythingAfter(0));
    MatchingOfTwo(two, one, EverythingAfter(2));
    SnapshotIsNewestMatching([two, one], EverythingAfter(2));
    assert [two] + [one] == [two, one];
  }
}
