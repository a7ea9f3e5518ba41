/**
 How long an open breaker stays open when the atomic operations of its methods overlap: the new
 state is published before the new opening time, so a call can be judged by an old one.
 */
module CircuitTiming {
  import opened Common
  import opened Circuit
  import opened CircuitSteps

  type Event = CircuitSteps.Event

  predicate Opens(s: Shared, after: Shared) {
    s.breaker.state != Open && after.breaker.state == Open
  }

  // The stored time is not before the last opening.
  predicate Current(s: Shared, lastOpened: Instant) {
    s.breaker.state == Open ==> s.breaker.openSince >= lastOpened
  }

  function LastOpened(s: Shared, after: Shared, lastOpened: Instant, now: Instant): Instant {
    if Opens(s, after) then now else lastOpened
  }

  // The time a thread is about to store; "not set" is later than any time.
  function ToStore(pc: Pc): Option<nat> {
    match pc
    case FailureStamp(at) => Some(at)
    case SuccessClearTime => Some(U64_MAX)
    case ResetClearTime => Some(U64_MAX)
    case _ => None
  }

  // The stored time of an open breaker is current after a step exactly when it
  // opens with a time no earlier than this still stored, when a time no earlier
  // than the last opening is stored, or when nothing is stored and it was.
  lemma TimeIsCurrentExactly(
    cfg: Settings, drain: Drain, s: Shared, t: ThreadId, now: Instant, lastOpened: Instant)
    requires t in s.threads
    ensures var after := Next(cfg, drain, s, Tick(t, now));
            Current(after, LastOpened(s, after, lastOpened, now))
            <==> || after.breaker.state != Open
                 || if Opens(s, after) then s.breaker.openSince >= now
                    else match ToStore(s.threads[t])
                         case Some(time) => time >= lastOpened
                         case None => Current(s, lastOpened)
  {
  }

  // When the breaker last opened in the first n events of a run; before the run
  // it last opened at `since`.
  function OpenedIn(states: seq<Shared>, events: seq<Event>, since: Instant, n: nat): Instant
    requires |states| == |events| + 1 && n <= |events|
  {
    if n == 0 then since
    else if events[n - 1].Tick? && Opens(states[n - 1], states[n]) then events[n - 1].now
    else OpenedIn(states, events, since, n - 1)
  }

  lemma {:induction false} SameOpening(states: seq<Shared>, events: seq<Event>, since: Instant, i: nat, j: nat)
    requires |states| == |events| + 1 && i <= j <= |events|
    requires forall m :: i <= m < j ==> !Opens(states[m], states[m + 1])
    ensures OpenedIn(states, events, since, j) == OpenedIn(states, events, since, i)
    ensures states[j].breaker.state == Open ==> states[i].breaker.state == Open
    decreases j - i
  {
    if i < j {
      SameOpening(states, events, since, i, j - 1);
    }
  }

  lemma OthersStay(cfg: Settings, drain: Drain, states: seq<Shared>, events: seq<Event>, k: nat, t: ThreadId)
    requires IsRun(cfg, drain, states, events) && k < |events| && events[k].t != t
    ensures t in states[k + 1].threads <==> t in states[k].threads
    ensures t in states[k].threads ==> states[k + 1].threads[t] == states[k].threads[t]
  {
    assert Enabled(states[k], events[k]) && states[k + 1] == Next(cfg, drain, states[k], events[k]);
    OnlyOneThreadMoves(cfg, drain, states[k], events[k]);
  }

  // A thread stays where it is while the others move.
  lemma {:induction false} StaysPut(
    cfg: Settings, drain: Drain, states: seq<Shared>, events: seq<Event>, i: nat, j: nat, t: ThreadId)
    requires IsRun(cfg, drain, states, events) && i <= j <= |events| && t in states[i].threads
    requires forall m :: i <= m < j ==> events[m].t != t
    ensures t in states[j].threads && states[j].threads[t] == states[i].threads[t]
    decreases j - i
  {
    if i < j {
      StaysPut(cfg, drain, states, events, i, j - 1, t);
      OthersStay(cfg, drain, states, events, j - 1, t);
    }
  }

  // The steps of one call: it loads the time at event i, reads the clock at k
  // and makes the exchange at j, and takes no other step in between.
  ghost predicate Checks(states: seq<Shared>, events: seq<Event>, t: ThreadId, i: nat, k: nat, j: nat) {
    && |states| == |events| + 1 && i < k < j < |events|
    && events[i].Tick? && events[k].Tick? && events[j].Tick?
    && events[i].t == events[k].t == events[j].t == t
    && t in states[i].threads && states[i].threads[t] == CallLoadTime
    && (forall m :: i < m < j && m != k ==> events[m].t != t)
    && t in states[j].threads && states[j].threads[t] == CallExchange
  }

  lemma CheckPassed(
    cfg: Settings, drain: Drain, states: seq<Shared>, events: seq<Event>, t: ThreadId, i: nat, k: nat, j: nat)
    requires IsRun(cfg, drain, states, events) && Checks(states, events, t, i, k, j)
    ensures SaturatingSub(events[k].now, states[i].breaker.openSince) >= cfg.openDuration
  {
    assert Enabled(states[i], events[i]) && states[i + 1] == Next(cfg, drain, states[i], events[i]);
    StaysPut(cfg, drain, states, events, i + 1, k, t);
    assert Enabled(states[k], events[k]) && states[k + 1] == Next(cfg, drain, states[k], events[k]);
    if t in states[k + 1].threads {
      StaysPut(cfg, drain, states, events, k + 1, j, t);
    } else {
      StaysOut(cfg, drain, states, events, k + 1, j, t);
    }
  }

  lemma {:induction false} StaysOut(
    cfg: Settings, drain: Drain, states: seq<Shared>, events: seq<Event>, i: nat, j: nat, t: ThreadId)
    requires IsRun(cfg, drain, states, events) && i <= j <= |events| && t !in states[i].threads
    requires forall m :: i <= m < j ==> events[m].t != t
    ensures t !in states[j].threads
    decreases j - i
  {
    if i < j {
      StaysOut(cfg, drain, states, events, i, j - 1, t);
      OthersStay(cfg, drain, states, events, j - 1, t);
    }
  }

  // In every run, whatever its clock does, a call that gets to the exchange and
  // finds the breaker open read the clock no sooner than the open duration after
  // the breaker last opened, unless the time it loaded was behind, or the
  // breaker opened again after it loaded it.
  lemma OpenLastsUnlessStale(
    cfg: Settings, drain: Drain, states: seq<Shared>, events: seq<Event>, since: Instant,
    t: ThreadId, i: nat, k: nat, j: nat)
    requires IsRun(cfg, drain, states, events) && Checks(states, events, t, i, k, j)
    requires states[j].breaker.state == Open && cfg.openDuration > 0
    ensures || events[k].now >= OpenedIn(states, events, since, j) + cfg.openDuration
            || !Current(states[i], OpenedIn(states, events, since, i))
            || exists m :: i <= m < j && Opens(states[m], states[m + 1])
  {
    CheckPassed(cfg, drain, states, events, t, i, k, j);
    if forall m :: i <= m < j ==> !Opens(states[m], states[m + 1]) {
      SameOpening(states, events, since, i, j);
    }
  }

  // -------------------------------------------------------------------------
  // Clocks that do not go back
  // -------------------------------------------------------------------------

  // The clock does not go back over the events of a run, nor behind `since`.
  ghost predicate ClockFrom(events: seq<Event>, since: Instant) {
    && (forall a :: 0 <= a < |events| && events[a].Tick? ==> since <= events[a].now)
    && forall a, b :: 0 <= a < b < |events| && events[a].Tick? && events[b].Tick? ==> events[a].now <= events[b].now
  }

  // The last time the clock showed in the first n events.
  function LastReading(events: seq<Event>, since: Instant, n: nat): Instant
    requires n <= |events|
  {
    if n == 0 then since
    else if events[n - 1].Tick? then events[n - 1].now
    else LastReading(events, since, n - 1)
  }

  lemma {:induction false} ReadingIsLatest(events: seq<Event>, since: Instant, n: nat)
    requires ClockFrom(events, since) && n <= |events|
    ensures since <= LastReading(events, since, n)
    ensures forall a :: 0 <= a < n && events[a].Tick? ==> events[a].now <= LastReading(events, since, n)
    ensures forall b :: n <= b < |events| && events[b].Tick? ==> LastReading(events, since, n) <= events[b].now
  {
    if n > 0 {
      ReadingIsLatest(events, since, n - 1);
    }
  }

  lemma {:induction false} OpenedByThen(states: seq<Shared>, events: seq<Event>, since: Instant, n: nat)
    requires |states| == |events| + 1 && n <= |events| && ClockFrom(events, since)
    ensures OpenedIn(states, events, since, n) <= LastReading(events, since, n)
  {
    if n > 0 {
      OpenedByThen(states, events, since, n - 1);
      ReadingIsLatest(events, since, n - 1);
    }
  }

  lemma {:induction false} OpenedNoEarlier(
    cfg: Settings, drain: Drain, states: seq<Shared>, events: seq<Event>, since: Instant, m: nat, j: nat)
    requires IsRun(cfg, drain, states, events) && ClockFrom(events, since) && m < j <= |events|
    requires events[m].Tick? && Opens(states[m], states[m + 1])
    ensures OpenedIn(states, events, since, j) >= events[m].now
    decreases j
  {
    if m < j - 1 && !(events[j - 1].Tick? && Opens(states[j - 1], states[j])) {
      OpenedNoEarlier(cfg, drain, states, events, since, m, j - 1);
    }
  }

  lemma OpeningIsTick(cfg: Settings, drain: Drain, states: seq<Shared>, events: seq<Event>, m: nat)
    requires IsRun(cfg, drain, states, events) && m < |events| && Opens(states[m], states[m + 1])
    ensures events[m].Tick?
  {
    assert Enabled(states[m], events[m]) && states[m + 1] == Next(cfg, drain, states[m], events[m]);
  }

  ghost predicate OpensBetween(states: seq<Shared>, k: nat, j: nat)
    requires j < |states|
  {
    exists m :: k < m < j && Opens(states[m], states[m + 1])
  }

  // A breaker that opens again after the call read its clock is always tried
  // before its new duration is over.
  lemma ReopenedIsTooEarly(
    cfg: Settings, drain: Drain, states: seq<Shared>, events: seq<Event>, since: Instant, k: nat, j: nat)
    requires IsRun(cfg, drain, states, events) && ClockFrom(events, since) && cfg.openDuration > 0
    requires k < j < |events| && events[k].Tick? && OpensBetween(states, k, j)
    ensures events[k].now < OpenedIn(states, events, since, j) + cfg.openDuration
  {
    var m :| k < m < j && Opens(states[m], states[m + 1]);
    OpeningIsTick(cfg, drain, states, events, m);
    OpenedNoEarlier(cfg, drain, states, events, since, m, j);
  }

  // -------------------------------------------------------------------------
  // When a call's check holds
  // -------------------------------------------------------------------------

  // The check a call makes lets through only readings an open duration after the
  // last opening, exactly when the time it loaded is not before that opening.
  lemma CheckIsSoundExactly(openedAt: nat, last: Instant, duration: nat)
    requires 0 < duration && last + duration < U64_MAX
    ensures (forall now: Instant :: now >= last && SaturatingSub(now, openedAt) >= duration ==> now >= last + duration)
            <==> openedAt >= last
  {
    if openedAt < last {
      var now: Instant := if openedAt + duration < last then last else openedAt + duration;
      assert now >= last && SaturatingSub(now, openedAt) >= duration && now < last + duration;
    }
  }

  // A reading the call could have made at event k: with it the clock still does
  // not go back over the run.
  ghost predicate CouldRead(events: seq<Event>, since: Instant, k: nat, now: Instant)
    requires k < |events|
  {
    ClockFrom(events[k := Tick(events[k].t, now)], since)
  }

  lemma {:induction false} SameReadingBefore(events: seq<Event>, since: Instant, k: nat, e: Event, n: nat)
    requires n <= k < |events|
    ensures LastReading(events[k := e], since, n) == LastReading(events, since, n)
  {
    if n > 0 {
      SameReadingBefore(events, since, k, e, n - 1);
    }
  }

  lemma CouldReadOnlyLater(events: seq<Event>, since: Instant, k: nat, now: Instant)
    requires k < |events| && CouldRead(events, since, k, now)
    ensures LastReading(events, since, k) <= now
  {
    var e := Tick(events[k].t, now);
    SameReadingBefore(events, since, k, e, k);
    ReadingIsLatest(events[k := e], since, k);
    assert events[k := e][k] == e;
  }

  lemma CouldReadBetween(events: seq<Event>, since: Instant, k: nat, now: Instant)
    requires ClockFrom(events, since) && k < |events| && events[k].Tick?
    requires LastReading(events, since, k) <= now <= events[k].now
    ensures CouldRead(events, since, k, now)
  {
    ReadingIsLatest(events, since, k);
  }

  // Whatever the clock showed, the call's check means that the open duration is
  // over by its exchange.
  ghost predicate CheckHolds(
    cfg: Settings, states: seq<Shared>, events: seq<Event>, since: Instant, i: nat, k: nat, j: nat)
    requires |states| == |events| + 1 && i < k < j < |events|
  {
    forall now: Instant ::
      CouldRead(events, since, k, now) && SaturatingSub(now, states[i].breaker.openSince) >= cfg.openDuration ==>
        now >= OpenedIn(states, events, since, j) + cfg.openDuration
  }

  // The time loaded is not before the last opening, or an earlier event shows
  // that the open duration was over anyway.
  predicate IsOver(cfg: Settings, states: seq<Shared>, events: seq<Event>, since: Instant, i: nat, k: nat)
    requires |states| == |events| + 1 && i < k < |events|
  {
    var last := OpenedIn(states, events, since, k);
    states[i].breaker.openSince >= last || LastReading(events, since, k) >= last + cfg.openDuration
  }

  lemma NoOpeningSameTime(
    cfg: Settings, drain: Drain, states: seq<Shared>, events: seq<Event>, since: Instant,
    t: ThreadId, i: nat, k: nat, j: nat)
    requires IsRun(cfg, drain, states, events) && Checks(states, events, t, i, k, j) && !OpensBetween(states, k, j)
    ensures OpenedIn(states, events, since, j) == OpenedIn(states, events, since, k)
  {
    ReadingDoesNotOpen(cfg, drain, states, events, t, i, k, j);
    forall m | k <= m < j ensures !Opens(states[m], states[m + 1]) {
    }
    SameOpening(states, events, since, k, j);
  }

  lemma ReadingDoesNotOpen(
    cfg: Settings, drain: Drain, states: seq<Shared>, events: seq<Event>, t: ThreadId, i: nat, k: nat, j: nat)
    requires IsRun(cfg, drain, states, events) && Checks(states, events, t, i, k, j)
    ensures !Opens(states[k], states[k + 1])
  {
    assert Enabled(states[i], events[i]) && states[i + 1] == Next(cfg, drain, states[i], events[i]);
    StaysPut(cfg, drain, states, events, i + 1, k, t);
    assert Enabled(states[k], events[k]) && states[k + 1] == Next(cfg, drain, states[k], events[k]);
  }

  lemma ReadingItself(events: seq<Event>, since: Instant, k: nat)
    requires ClockFrom(events, since) && k < |events| && events[k].Tick?
    ensures CouldRead(events, since, k, events[k].now)
  {
    assert events[k := Tick(events[k].t, events[k].now)] == events;
  }

  lemma HoldsWhenOver(
    cfg: Settings, states: seq<Shared>, events: seq<Event>, since: Instant, i: nat, k: nat, j: nat)
    requires |states| == |events| + 1 && i < k < j < |events| && cfg.openDuration > 0
    requires OpenedIn(states, events, since, j) == OpenedIn(states, events, since, k)
    requires IsOver(cfg, states, events, since, i, k)
    ensures CheckHolds(cfg, states, events, since, i, k, j)
  {
    forall now: Instant |
      CouldRead(events, since, k, now) && SaturatingSub(now, states[i].breaker.openSince) >= cfg.openDuration
      ensures now >= OpenedIn(states, events, since, j) + cfg.openDuration
    {
      CouldReadOnlyLater(events, since, k, now);
    }
  }

  lemma FailsUnlessOver(
    cfg: Settings, states: seq<Shared>, events: seq<Event>, since: Instant, i: nat, k: nat, j: nat)
    requires |states| == |events| + 1 && i < k < j < |events| && ClockFrom(events, since) && events[k].Tick?
    requires OpenedIn(states, events, since, j) == OpenedIn(states, events, since, k)
    requires SaturatingSub(events[k].now, states[i].breaker.openSince) >= cfg.openDuration > 0
    requires !IsOver(cfg, states, events, since, i, k)
    ensures !CheckHolds(cfg, states, events, since, i, k, j)
  {
    ReadingIsLatest(events, since, k);
    var earliest, before := states[i].breaker.openSince + cfg.openDuration, LastReading(events, since, k);
    var now: Instant := if earliest < before then before else earliest;
    CouldReadBetween(events, since, k, now);
    assert SaturatingSub(now, states[i].breaker.openSince) >= cfg.openDuration;
    assert now < OpenedIn(states, events, since, j) + cfg.openDuration;
  }

  // A call's check is sound, over every reading it could have made, exactly when
  // the breaker does not open between the reading and the exchange, and the time
  // it loaded is not before the last opening or that opening was an open duration
  // ago already. Both ways it fails happen.
  lemma CheckHoldsExactly(
    cfg: Settings, drain: Drain, states: seq<Shared>, events: seq<Event>, since: Instant,
    t: ThreadId, i: nat, k: nat, j: nat)
    requires IsRun(cfg, drain, states, events) && ClockFrom(events, since)
    requires Checks(states, events, t, i, k, j) && cfg.openDuration > 0
    ensures CheckHolds(cfg, states, events, since, i, k, j)
            <==> IsOver(cfg, states, events, since, i, k) && !OpensBetween(states, k, j)
  {
    CheckPassed(cfg, drain, states, events, t, i, k, j);
    if OpensBetween(states, k, j) {
      ReopenedIsTooEarly(cfg, drain, states, events, since, k, j);
      ReadingItself(events, since, k);
    } else {
      NoOpeningSameTime(cfg, drain, states, events, since, t, i, k, j);
      if IsOver(cfg, states, events, since, i, k) {
        HoldsWhenOver(cfg, states, events, since, i, k, j);
      } else {
        FailsUnlessOver(cfg, states, events, since, i, k, j);
      }
    }
  }

  // So in every run, a call of which this is true reads the clock an open duration
  // after the breaker last opened.
  lemma OpenLastsWhenSound(
    cfg: Settings, drain: Drain, states: seq<Shared>, events: seq<Event>, since: Instant,
    t: ThreadId, i: nat, k: nat, j: nat)
    requires IsRun(cfg, drain, states, events) && ClockFrom(events, since)
    requires Checks(states, events, t, i, k, j) && cfg.openDuration > 0
    requires IsOver(cfg, states, events, since, i, k) && !OpensBetween(states, k, j)
    ensures events[k].now >= OpenedIn(states, events, since, j) + cfg.openDuration
  {
    CheckHoldsExactly(cfg, drain, states, events, since, t, i, k, j);
    CheckPassed(cfg, drain, states, events, t, i, k, j);
    ReadingItself(events, since, k);
  }

  // -------------------------------------------------------------------------
  // Runs in which the open state is cut short
  // -------------------------------------------------------------------------

  // A failed probe opens the breaker again and is overtaken before it stores the
  // new time; a call is judged by the old time and is let try at once.
  function HastyState(b: Breaker, now: Instant, k: nat): Shared {
    var reopened := b.(state := Open);
    var at := (c: Breaker, threads: map<ThreadId, Pc>) => Quiet(c).(threads := threads);
    match k
    case 0 => Quiet(b)
    case 1 => at(b, map[0 := FailureLoadState])
    case 2 => at(b, map[0 := FailureExchange(HalfOpen)])
    case 3 => at(reopened, map[0 := FailureReadClock])
    case 4 => at(reopened, map[0 := FailureReadClock, 1 := CallLoadState])
    case 5 => at(reopened, map[0 := FailureReadClock, 1 := CallLoadTime])
    case 6 => at(reopened, map[0 := FailureReadClock, 1 := CallReadClock(b.openSince)])
    case 7 => at(reopened, map[0 := FailureReadClock, 1 := CallExchange])
    case _ => at(b, map[0 := FailureReadClock, 1 := DrainTry]).(wins := 1)
  }

  function HastyEvent(now: Instant, k: nat): Event {
    match k
    case 0 => Begin(0, OnFailure)
    case 1 => Tick(0, now)
    case 2 => Tick(0, now)
    case 3 => Begin(1, Operation.CallAllowed)
    case _ => Tick(1, now)
  }

  lemma HastyStep(cfg: Settings, drain: Drain, b: Breaker, now: Instant, k: nat)
    requires b.state == HalfOpen && SaturatingSub(now, b.openSince) >= cfg.openDuration && k < 8
    ensures Enabled(HastyState(b, now, k), HastyEvent(now, k))
    ensures HastyState(b, now, k + 1) == Next(cfg, drain, HastyState(b, now, k), HastyEvent(now, k))
  {
  }

  // From every half-open breaker whose last opening is an open duration ago: it
  // opens and is half-open again with no time gone by in between.
  lemma OpenCanLastNoTime(cfg: Settings, drain: Drain, b: Breaker, now: Instant)
      returns (states: seq<Shared>, events: seq<Event>)
    requires b.state == HalfOpen && SaturatingSub(now, b.openSince) >= cfg.openDuration
    ensures IsRun(cfg, drain, states, events) && states[0] == Quiet(b) && |states| == 9
    ensures forall i :: 0 <= i < |events| && events[i].Tick? ==> events[i].now == now
    ensures Opens(states[2], states[3]) && states[7].breaker.state == Open && states[8].breaker.state == HalfOpen
  {
    states := seq(9, k requires 0 <= k => HastyState(b, now, k));
    events := seq(8, k requires 0 <= k => HastyEvent(now, k));
    forall i | 0 <= i < |events|
      ensures Enabled(states[i], events[i]) && states[i + 1] == Next(cfg, drain, states[i], events[i])
    {
      HastyStep(cfg, drain, b, now, i);
    }
  }

  // A call checks a current time and waits before its exchange; another wins the
  // transition, its probe fails, and the breaker opens and stores its new time;
  // then the first call's exchange wins.
  function WaitingState(b: Breaker, now: Instant, k: nat): Shared {
    var half, again := b.(state := HalfOpen), b.(openSince := now);
    var at := (c: Breaker, threads: map<ThreadId, Pc>, wins: nat) => Quiet(c).(threads := threads, wins := wins);
    match k
    case 0 => Quiet(b)
    case 1 => at(b, map[0 := CallLoadState], 0)
    case 2 => at(b, map[0 := CallLoadTime], 0)
    case 3 => at(b, map[0 := CallReadClock(b.openSince)], 0)
    case 4 => at(b, map[0 := CallExchange], 0)
    case 5 => at(b, map[0 := CallExchange, 1 := CallLoadState], 0)
    case 6 => at(b, map[0 := CallExchange, 1 := CallLoadTime], 0)
    case 7 => at(b, map[0 := CallExchange, 1 := CallReadClock(b.openSince)], 0)
    case 8 => at(b, map[0 := CallExchange, 1 := CallExchange], 0)
    case 9 => at(half, map[0 := CallExchange, 1 := DrainTry], 1)
    case 10 => at(half, map[0 := CallExchange, 1 := DrainTry, 2 := FailureLoadState], 1)
    case 11 => at(half, map[0 := CallExchange, 1 := DrainTry, 2 := FailureExchange(HalfOpen)], 1)
    case 12 => at(b, map[0 := CallExchange, 1 := DrainTry, 2 := FailureReadClock], 1)
    case 13 => at(b, map[0 := CallExchange, 1 := DrainTry, 2 := FailureStamp(now)], 1)
    case 14 => at(again, map[0 := CallExchange, 1 := DrainTry], 1)
    case _ => at(again.(state := HalfOpen), map[0 := DrainTry, 1 := DrainTry], 2)
  }

  function WaitingEvent(now: Instant, k: nat): Event {
    match k
    case 0 => Begin(0, Operation.CallAllowed)
    case 1 => Tick(0, now)
    case 2 => Tick(0, now)
    case 3 => Tick(0, now)
    case 4 => Begin(1, Operation.CallAllowed)
    case 9 => Begin(2, OnFailure)
    case 10 => Tick(2, now)
    case 11 => Tick(2, now)
    case 12 => Tick(2, now)
    case 13 => Tick(2, now)
    case 14 => Tick(0, now)
    case _ => Tick(1, now)
  }

  lemma FirstWaitingStep(cfg: Settings, drain: Drain, b: Breaker, now: Instant, k: nat)
    requires b.state == Open && SaturatingSub(now, b.openSince) >= cfg.openDuration && k < 5
    ensures Enabled(WaitingState(b, now, k), WaitingEvent(now, k))
    ensures WaitingState(b, now, k + 1) == Next(cfg, drain, WaitingState(b, now, k), WaitingEvent(now, k))
  {
  }

  lemma SecondWaitingStep(cfg: Settings, drain: Drain, b: Breaker, now: Instant, k: nat)
    requires b.state == Open && SaturatingSub(now, b.openSince) >= cfg.openDuration && 5 <= k < 9
    ensures Enabled(WaitingState(b, now, k), WaitingEvent(now, k))
    ensures WaitingState(b, now, k + 1) == Next(cfg, drain, WaitingState(b, now, k), WaitingEvent(now, k))
  {
  }

  lemma ThirdWaitingStep(cfg: Settings, drain: Drain, b: Breaker, now: Instant, k: nat)
    requires b.state == Open && 9 <= k < 15
    ensures Enabled(WaitingState(b, now, k), WaitingEvent(now, k))
    ensures WaitingState(b, now, k + 1) == Next(cfg, drain, WaitingState(b, now, k), WaitingEvent(now, k))
  {
  }

  lemma WaitingStep(cfg: Settings, drain: Drain, b: Breaker, now: Instant, k: nat)
    requires b.state == Open && SaturatingSub(now, b.openSince) >= cfg.openDuration && k < 15
    ensures Enabled(WaitingState(b, now, k), WaitingEvent(now, k))
    ensures WaitingState(b, now, k + 1) == Next(cfg, drain, WaitingState(b, now, k), WaitingEvent(now, k))
  {
    if k < 5 {
      FirstWaitingStep(cfg, drain, b, now, k);
    } else if k < 9 {
      SecondWaitingStep(cfg, drain, b, now, k);
    } else {
      ThirdWaitingStep(cfg, drain, b, now, k);
    }
  }

  ghost predicate IsWaitingRun(b: Breaker, now: Instant, states: seq<Shared>, events: seq<Event>) {
    && |states| == 16 && (forall k :: 0 <= k < 16 ==> states[k] == WaitingState(b, now, k))
    && |events| == 15 && (forall k :: 0 <= k < 15 ==> events[k] == WaitingEvent(now, k))
  }

  lemma WaitingRunIsRun(
    cfg: Settings, drain: Drain, b: Breaker, now: Instant, states: seq<Shared>, events: seq<Event>)
    requires b.state == Open && SaturatingSub(now, b.openSince) >= cfg.openDuration
    requires IsWaitingRun(b, now, states, events)
    ensures IsRun(cfg, drain, states, events)
  {
    forall i | 0 <= i < |events|
      ensures Enabled(states[i], events[i]) && states[i + 1] == Next(cfg, drain, states[i], events[i])
    {
      WaitingStep(cfg, drain, b, now, i);
      assert states[i] == WaitingState(b, now, i) && states[i + 1] == WaitingState(b, now, i + 1);
    }
  }

  lemma WaitingRunReopens(b: Breaker, now: Instant, states: seq<Shared>, events: seq<Event>)
    requires b.state == Open && IsWaitingRun(b, now, states, events)
    ensures Opens(states[11], states[12]) && OpensBetween(states, 3, 14)
    ensures states[14].breaker.state == Open && states[14].breaker.openSince == now
    ensures states[15].breaker.state == HalfOpen
  {
    assert Opens(states[11], states[11 + 1]);
  }

  lemma WaitingCallChecks(b: Breaker, now: Instant, states: seq<Shared>, events: seq<Event>)
    requires IsWaitingRun(b, now, states, events)
    ensures Checks(states, events, 0, 2, 3, 14)
    ensures forall i :: 0 <= i < |events| && events[i].Tick? ==> events[i].now == now
  {
  }

  lemma WaitingLoadsCurrent(b: Breaker, now: Instant, states: seq<Shared>, events: seq<Event>)
    requires b.state == Open && IsWaitingRun(b, now, states, events) && b.openSince < U64_MAX
    ensures states[2].breaker.openSince >= OpenedIn(states, events, b.openSince, 3)
  {
    assert forall k | 0 <= k < 3 :: !Opens(states[k], states[k + 1]);
    SameOpening(states, events, b.openSince, 0, 3);
  }

  // From every open breaker whose duration is over: a stored time that is current
  // whenever the call looks is not enough. It is current where the call loads it
  // and where it makes the exchange, and the open state lasts no time.
  lemma WaitingCallCutsOpenShort(cfg: Settings, drain: Drain, b: Breaker, now: Instant)
      returns (states: seq<Shared>, events: seq<Event>)
    requires b.state == Open && SaturatingSub(now, b.openSince) >= cfg.openDuration
    ensures IsRun(cfg, drain, states, events) && states[0] == Quiet(b) && |states| == 16
    ensures forall i :: 0 <= i < |events| && events[i].Tick? ==> events[i].now == now
    ensures Checks(states, events, 0, 2, 3, 14)
    ensures b.openSince < U64_MAX ==> states[2].breaker.openSince >= OpenedIn(states, events, b.openSince, 3)
    ensures Opens(states[11], states[12]) && OpensBetween(states, 3, 14)
    ensures states[14].breaker.state == Open && states[14].breaker.openSince == now
    ensures states[15].breaker.state == HalfOpen
  {
    states := seq(16, k requires 0 <= k => WaitingState(b, now, k));
    events := seq(15, k requires 0 <= k => WaitingEvent(now, k));
    assert IsWaitingRun(b, now, states, events);
    WaitingRunIsRun(cfg, drain, b, now, states, events);
    WaitingCallChecks(b, now, states, events);
    WaitingRunReopens(b, now, states, events);
    if b.openSince < U64_MAX {
      WaitingLoadsCurrent(b, now, states, events);
    }
  }

  // -------------------------------------------------------------------------
  // A run in which the stored time goes back
  // -------------------------------------------------------------------------

  // A failed probe opens the breaker, reads the clock and waits; a call judged by
  // the old time wins the transition, a second probe fails, and its later opening
  // time is stored; then the first one stores its earlier time over it.
  function LateState(b: Breaker, t1: Instant, t2: Instant, k: nat): Shared {
    var reopened, later := b.(state := Open), b.(state := Open, openSince := t2);
    var at := (c: Breaker, threads: map<ThreadId, Pc>, wins: nat) => Quiet(c).(threads := threads, wins := wins);
    match k
    case 0 => Quiet(b)
    case 1 => at(b, map[0 := FailureLoadState], 0)
    case 2 => at(b, map[0 := FailureExchange(HalfOpen)], 0)
    case 3 => at(reopened, map[0 := FailureReadClock], 0)
    case 4 => at(reopened, map[0 := FailureStamp(t1)], 0)
    case 5 => at(reopened, map[0 := FailureStamp(t1), 1 := CallLoadState], 0)
    case 6 => at(reopened, map[0 := FailureStamp(t1), 1 := CallLoadTime], 0)
    case 7 => at(reopened, map[0 := FailureStamp(t1), 1 := CallReadClock(b.openSince)], 0)
    case 8 => at(reopened, map[0 := FailureStamp(t1), 1 := CallExchange], 0)
    case 9 => at(b, map[0 := FailureStamp(t1), 1 := DrainTry], 1)
    case 10 => at(b, map[0 := FailureStamp(t1), 1 := DrainTry, 2 := FailureLoadState], 1)
    case 11 => at(b, map[0 := FailureStamp(t1), 1 := DrainTry, 2 := FailureExchange(HalfOpen)], 1)
    case 12 => at(reopened, map[0 := FailureStamp(t1), 1 := DrainTry, 2 := FailureReadClock], 1)
    case 13 => at(reopened, map[0 := FailureStamp(t1), 1 := DrainTry, 2 := FailureStamp(t2)], 1)
    case 14 => at(later, map[0 := FailureStamp(t1), 1 := DrainTry], 1)
    case _ => at(later.(openSince := t1), map[1 := DrainTry], 1)
  }

  function LateEvent(t1: Instant, t2: Instant, k: nat): Event {
    match k
    case 0 => Begin(0, OnFailure)
    case 1 => Tick(0, t1)
    case 2 => Tick(0, t1)
    case 3 => Tick(0, t1)
    case 4 => Begin(1, Operation.CallAllowed)
    case 9 => Begin(2, OnFailure)
    case 10 => Tick(2, t1)
    case 11 => Tick(2, t2)
    case 12 => Tick(2, t2)
    case 13 => Tick(2, t2)
    case 14 => Tick(0, t2)
    case _ => Tick(1, t1)
  }

  predicate CanBeLate(cfg: Settings, b: Breaker, t1: Instant, t2: Instant) {
    b.state == HalfOpen && SaturatingSub(t1, b.openSince) >= cfg.openDuration && t1 < t2
  }

  lemma FirstLateStep(cfg: Settings, drain: Drain, b: Breaker, t1: Instant, t2: Instant, k: nat)
    requires CanBeLate(cfg, b, t1, t2) && k < 5
    ensures Enabled(LateState(b, t1, t2, k), LateEvent(t1, t2, k))
    ensures LateState(b, t1, t2, k + 1) == Next(cfg, drain, LateState(b, t1, t2, k), LateEvent(t1, t2, k))
  {
  }

  lemma SecondLateStep(cfg: Settings, drain: Drain, b: Breaker, t1: Instant, t2: Instant, k: nat)
    requires CanBeLate(cfg, b, t1, t2) && 5 <= k < 10
    ensures Enabled(LateState(b, t1, t2, k), LateEvent(t1, t2, k))
    ensures LateState(b, t1, t2, k + 1) == Next(cfg, drain, LateState(b, t1, t2, k), LateEvent(t1, t2, k))
  {
  }

  lemma ThirdLateStep(cfg: Settings, drain: Drain, b: Breaker, t1: Instant, t2: Instant, k: nat)
    requires CanBeLate(cfg, b, t1, t2) && 10 <= k < 15
    ensures Enabled(LateState(b, t1, t2, k), LateEvent(t1, t2, k))
    ensures LateState(b, t1, t2, k + 1) == Next(cfg, drain, LateState(b, t1, t2, k), LateEvent(t1, t2, k))
  {
  }

  lemma LateStep(cfg: Settings, drain: Drain, b: Breaker, t1: Instant, t2: Instant, k: nat)
    requires CanBeLate(cfg, b, t1, t2) && k < 15
    ensures Enabled(LateState(b, t1, t2, k), LateEvent(t1, t2, k))
    ensures LateState(b, t1, t2, k + 1) == Next(cfg, drain, LateState(b, t1, t2, k), LateEvent(t1, t2, k))
  {
    if k < 5 {
      FirstLateStep(cfg, drain, b, t1, t2, k);
    } else if k < 10 {
      SecondLateStep(cfg, drain, b, t1, t2, k);
    } else {
      ThirdLateStep(cfg, drain, b, t1, t2, k);
    }
  }

  ghost predicate IsLateRun(b: Breaker, t1: Instant, t2: Instant, states: seq<Shared>, events: seq<Event>) {
    && |states| == 16 && (forall k :: 0 <= k < 16 ==> states[k] == LateState(b, t1, t2, k))
    && |events| == 15 && (forall k :: 0 <= k < 15 ==> events[k] == LateEvent(t1, t2, k))
  }

  lemma LateRunIsRun(cfg: Settings, drain: Drain, b: Breaker, t1: Instant, t2: Instant,
      states: seq<Shared>, events: seq<Event>)
    requires CanBeLate(cfg, b, t1, t2) && IsLateRun(b, t1, t2, states, events)
    ensures IsRun(cfg, drain, states, events)
  {
    forall i | 0 <= i < |events|
      ensures Enabled(states[i], events[i]) && states[i + 1] == Next(cfg, drain, states[i], events[i])
    {
      LateStep(cfg, drain, b, t1, t2, i);
      assert states[i] == LateState(b, t1, t2, i) && states[i + 1] == LateState(b, t1, t2, i + 1);
    }
  }

  lemma LateRunGoesBack(b: Breaker, t1: Instant, t2: Instant, states: seq<Shared>, events: seq<Event>)
    requires b.state == HalfOpen && t1 < t2 && IsLateRun(b, t1, t2, states, events)
    ensures ClockFrom(events, 0)
    ensures events[11] == Tick(2, t2) && Opens(states[11], states[12])
    ensures states[14].breaker.state == Open && states[14].breaker.openSince == t2
    ensures states[15].breaker.state == Open && states[15].breaker.openSince == t1
  {
  }

  // From every half-open breaker whose last opening is an open duration ago: it
  // opens at t2, stores that time, and then has an earlier one stored again.
  lemma StoredTimeCanGoBack(cfg: Settings, drain: Drain, b: Breaker, t1: Instant, t2: Instant)
      returns (states: seq<Shared>, events: seq<Event>)
    requires b.state == HalfOpen && SaturatingSub(t1, b.openSince) >= cfg.openDuration && t1 < t2
    ensures IsRun(cfg, drain, states, events) && states[0] == Quiet(b) && |states| == 16 && ClockFrom(events, 0)
    ensures events[11] == Tick(2, t2) && Opens(states[11], states[12])
    ensures states[14].breaker.state == Open && states[14].breaker.openSince == t2
    ensures states[15].breaker.state == Open && states[15].breaker.openSince == t1
  {
    states := seq(16, k requires 0 <= k => LateState(b, t1, t2, k));
    events := seq(15, k requires 0 <= k => LateEvent(t1, t2, k));
    assert IsLateRun(b, t1, t2, states, events);
    LateRunIsRun(cfg, drain, b, t1, t2, states, events);
    LateRunGoesBack(b, t1, t2, states, events);
  }
}
