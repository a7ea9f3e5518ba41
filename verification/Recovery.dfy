/** The recovery loop of a server that is down, and the retry loop inside one reconnect. */
module Recovery {
  import opened Common

  // -------------------------------------------------------------------------
  // Backoff of one recovery episode, in seconds
  // -------------------------------------------------------------------------

  const RECOVERY_MIN_DELAY: nat := 1
  const RECOVERY_MAX_DELAY: nat := 60

  function DelayAfter(failures: nat): nat {
    var doublings := Min(SaturatingSub(failures, 1), 16);
    Min(RECOVERY_MIN_DELAY * Pow2(doublings), RECOVERY_MAX_DELAY)
  }

  predicate JustReachedCap(failures: nat) {
    && failures > 1
    && DelayAfter(failures) == RECOVERY_MAX_DELAY
    && DelayAfter(failures - 1) < RECOVERY_MAX_DELAY
  }

  lemma FirstPowers()
    ensures Pow2(0) == 1 && Pow2(1) == 2 && Pow2(2) == 4 && Pow2(3) == 8
    ensures Pow2(4) == 16 && Pow2(5) == 32 && Pow2(6) == 64
  {
    assert Pow2(1) == 2 * Pow2(0) && Pow2(2) == 2 * Pow2(1) && Pow2(3) == 2 * Pow2(2);
    assert Pow2(4) == 2 * Pow2(3) && Pow2(5) == 2 * Pow2(4) && Pow2(6) == 2 * Pow2(5);
  }

  // The n-th delay is 2^(n-1) seconds, up to a minute; stopping the exponent
  // at sixteen changes nothing.
  lemma DelayIsCappedPower(failures: nat)
    requires failures >= 1
    ensures DelayAfter(failures) == Min(Pow2(failures - 1), 60)
  {
    FirstPowers();
    if failures >= 7 {
      Pow2Monotone(6, failures - 1);
      Pow2Monotone(6, Min(failures - 1, 16));
    }
  }

  lemma DelayNeverShrinks(m: nat, n: nat)
    requires m <= n
    ensures DelayAfter(m) <= DelayAfter(n)
  {
    Pow2Monotone(Min(SaturatingSub(m, 1), 16), Min(SaturatingSub(n, 1), 16));
  }

  lemma CapIsAnnouncedOnce(failures: nat)
    ensures JustReachedCap(failures) <==> failures == 7
  {
    FirstPowers();
    if failures >= 7 {
      DelayIsCappedPower(failures);
      DelayIsCappedPower(failures - 1);
      Pow2Monotone(6, failures - 1);
      if failures > 7 {
        Pow2Monotone(6, failures - 2);
      }
    } else if failures >= 1 {
      DelayIsCappedPower(failures);
    }
  }

  // What the first n failures make the episode wait in all.
  function Waits(n: nat): nat {
    if n == 0 then 0 else Waits(n - 1) + DelayAfter(n)
  }

  lemma {:induction false} WaitsClosedForm(n: nat)
    ensures n <= 6 ==> Waits(n) == Pow2(n) - 1
    ensures n >= 6 ==> Waits(n) == 63 + 60 * (n - 6)
  {
    FirstPowers();
    if n > 0 {
      WaitsClosedForm(n - 1);
      DelayIsCappedPower(n);
      if n > 6 {
        Pow2Monotone(6, n - 1);
      }
    }
  }

  class RecoveryBackoff {
    var failures: nat

    constructor ()
      ensures failures == 0
    {
      failures := 0;
    }

    method RecordFailure() returns (delay: nat)
      modifies this
      ensures failures == old(failures) + 1
      ensures delay == DelayAfter(failures)
    {
      failures := failures + 1;
      delay := DelayAfter(failures);
    }

    method StartOver()
      modifies this
      ensures failures == 0
    {
      failures := 0;
    }
  }

  // -------------------------------------------------------------------------
  // One episode
  // -------------------------------------------------------------------------

  // One turn of the loop: how long the attempt takes and whether it works, the
  // extra wait, whether a wake-up cuts the wait short and when, and whether
  // the server still needs recovery afterwards.
  datatype Turn = Turn(takes: nat, works: bool, jitter: nat, wokenAfter: Option<nat>, stillNeeded: bool)

  datatype Notice = FirstFailure | AtSlowestRate | Quiet

  // A failed attempt: when it failed, and how loudly it is logged.
  datatype Failed = Failed(at: nat, notice: Notice)

  function NoticeFor(failures: nat): Notice {
    if failures == 1 then FirstFailure else if JustReachedCap(failures) then AtSlowestRate else Quiet
  }

  function Pause(turn: Turn, delay: nat): nat {
    match turn.wokenAfter
    case None => delay + turn.jitter
    case Some(early) => Min(early, delay + turn.jitter)
  }

  datatype Progress = Progress(failed: seq<Failed>, now: nat, failures: nat, over: bool)

  function TurnStep(p: Progress, turn: Turn): Progress {
    if p.over then p
    else if turn.works then p.(over := true)
    else
      var at, count := p.now + turn.takes, p.failures + 1;
      Progress(p.failed + [Failed(at, NoticeFor(count))], at + Pause(turn, DelayAfter(count)),
               if turn.wokenAfter.Some? then 0 else count, !turn.stillNeeded)
  }

  function After(turns: seq<Turn>, start: nat): Progress {
    if turns == [] then Progress([], start, 0, false)
    else TurnStep(After(turns[..|turns| - 1], start), turns[|turns| - 1])
  }

  // The failed attempts of an episode.
  function Episode(turns: seq<Turn>, start: nat): seq<Failed> {
    After(turns, start).failed
  }

  lemma {:induction false} OverIsOver(turns: seq<Turn>, start: nat, i: nat)
    requires i <= |turns| && After(turns[..i], start).over
    ensures After(turns, start) == After(turns[..i], start)
    decreases |turns| - i
  {
    if i < |turns| {
      assert turns[..i + 1][..i] == turns[..i];
      OverIsOver(turns, start, i + 1);
    } else {
      assert turns[..i] == turns;
    }
  }

  // The part of a turn after its attempt failed.
  method FailTurn(backoff: RecoveryBackoff, turn: Turn, before: nat) returns (failure: Failed, now: nat)
    requires !turn.works
    modifies backoff
    ensures forall failed ::
              TurnStep(Progress(failed, before, old(backoff.failures), false), turn)
              == Progress(failed + [failure], now, backoff.failures, !turn.stillNeeded)
  {
    now := before + turn.takes;
    var delay := backoff.RecordFailure();
    failure := Failed(now, NoticeFor(backoff.failures));
    now := now + Pause(turn, delay);
    if turn.wokenAfter.Some? {
      backoff.StartOver();
    }
  }

  lemma StepAfter(turns: seq<Turn>, start: nat, i: nat)
    requires i < |turns|
    ensures After(turns[..i + 1], start) == TurnStep(After(turns[..i], start), turns[i])
  {
    assert turns[..i + 1][..i] == turns[..i];
  }

  method RunEpisode(turns: seq<Turn>, start: nat) returns (failed: seq<Failed>)
    ensures failed == Episode(turns, start)
  {
    var backoff := new RecoveryBackoff();
    var now: nat := start;
    failed := [];
    var i := 0;
    while i < |turns|
      invariant i <= |turns|
      invariant After(turns[..i], start) == Progress(failed, now, backoff.failures, false)
    {
      var turn := turns[i];
      StepAfter(turns, start, i);
      i := i + 1;
      if turn.works {
        OverIsOver(turns, start, i);
        return;
      }
      var failure;
      failure, now := FailTurn(backoff, turn, now);
      failed := failed + [failure];
      if !turn.stillNeeded {
        OverIsOver(turns, start, i);
        return;
      }
    }
    assert turns[..i] == turns;
  }

  predicate NeverWoken(turns: seq<Turn>) {
    forall i :: 0 <= i < |turns| ==> turns[i].wokenAfter.None?
  }

  // The failure after `k` others: when it comes, and what it announces.
  predicate IsNth(f: Failed, k: nat, start: nat) {
    f.at >= start + Waits(k) && f.notice == NoticeFor(k + 1)
  }

  predicate FailedOnTime(failed: seq<Failed>, start: nat) {
    forall k :: 0 <= k < |failed| ==> IsNth(failed[k], k, start)
  }

  lemma OneMoreFailure(failed: seq<Failed>, start: nat, at: nat)
    requires FailedOnTime(failed, start) && at >= start + Waits(|failed|)
    ensures FailedOnTime(failed + [Failed(at, NoticeFor(|failed| + 1))], start)
  {
    var last := Failed(at, NoticeFor(|failed| + 1));
    assert IsNth(last, |failed|, start);
    forall k | 0 <= k <= |failed| ensures IsNth((failed + [last])[k], k, start) {
      assert k < |failed| ==> IsNth(failed[k], k, start);
    }
  }

  predicate OnTime(p: Progress, start: nat) {
    p.failures == |p.failed| && p.now >= start + Waits(|p.failed|) && FailedOnTime(p.failed, start)
  }

  lemma {:induction false} FailureTimes(turns: seq<Turn>, start: nat)
    requires NeverWoken(turns)
    ensures OnTime(After(turns, start), start)
  {
    if turns != [] {
      var before, turn := turns[..|turns| - 1], turns[|turns| - 1];
      FailureTimes(before, start);
      var p := After(before, start);
      OneMoreFailure(p.failed, start, p.now + turn.takes);
    }
  }

  // A server that stays down is not hammered: the n-th failed attempt of an
  // episode, n at least seven, comes no sooner than 63 + 60 (n - 7) seconds in.
  lemma LateFailuresAreFarApart(turns: seq<Turn>, start: nat, n: nat)
    requires NeverWoken(turns) && 7 <= n <= |Episode(turns, start)|
    ensures Episode(turns, start)[n - 1].at >= start + 63 + 60 * (n - 7)
  {
    FailureTimes(turns, start);
    assert IsNth(Episode(turns, start)[n - 1], n - 1, start);
    WaitsClosedForm(n - 1);
  }

  // The slowest rate is announced on the seventh failure and on no other.
  lemma SlowestRateAnnouncedOnce(turns: seq<Turn>, start: nat, k: nat)
    requires NeverWoken(turns) && k < |Episode(turns, start)|
    ensures Episode(turns, start)[k].notice == AtSlowestRate <==> k == 6
    ensures Episode(turns, start)[k].notice == FirstFailure <==> k == 0
  {
    FailureTimes(turns, start);
    assert IsNth(Episode(turns, start)[k], k, start);
    CapIsAnnouncedOnce(k + 1);
  }

  // -------------------------------------------------------------------------
  // An episode to the second
  // -------------------------------------------------------------------------

  // Failures in a row up to and with turn k, since the last wake-up before it.
  function SinceWake(turns: seq<Turn>, k: nat): nat
    requires k < |turns|
  {
    if k == 0 || turns[k - 1].wokenAfter.Some? then 1 else SinceWake(turns, k - 1) + 1
  }

  // How long the loop waits after turn k: doubled seconds up to a minute and the
  // extra, or less if it is woken.
  function WaitAfter(turns: seq<Turn>, k: nat): nat
    requires k < |turns|
  {
    var full := Min(Pow2(SinceWake(turns, k) - 1), 60) + turns[k].jitter;
    if turns[k].wokenAfter.Some? && turns[k].wokenAfter.value < full then turns[k].wokenAfter.value else full
  }

  // When the attempt of turn k is over.
  function AttemptEnds(turns: seq<Turn>, start: nat, k: nat): nat
    requires k < |turns|
  {
    (if k == 0 then start else AttemptEnds(turns, start, k - 1) + WaitAfter(turns, k - 1)) + turns[k].takes
  }

  // The loop goes on after a turn that failed with the server still in need.
  predicate GoesOn(turns: seq<Turn>, n: nat)
    requires n <= |turns|
  {
    forall k :: 0 <= k < n ==> !turns[k].works && turns[k].stillNeeded
  }

  predicate IsAttempt(f: Failed, turns: seq<Turn>, start: nat, k: nat)
    requires k < |turns|
  {
    && f.at == AttemptEnds(turns, start, k)
    && (f.notice == FirstFailure <==> SinceWake(turns, k) == 1)
    && (f.notice == AtSlowestRate <==> SinceWake(turns, k) == 7)
  }

  lemma NoticeExactly(count: nat)
    requires count >= 1
    ensures NoticeFor(count) == FirstFailure <==> count == 1
    ensures NoticeFor(count) == AtSlowestRate <==> count == 7
  {
    CapIsAnnouncedOnce(count);
  }

  lemma PauseExactly(turns: seq<Turn>, k: nat)
    requires k < |turns|
    ensures Pause(turns[k], DelayAfter(SinceWake(turns, k))) == WaitAfter(turns, k)
  {
    DelayIsCappedPower(SinceWake(turns, k));
  }

  ghost predicate IsOnSchedule(p: Progress, turns: seq<Turn>, start: nat, n: nat)
    requires n <= |turns|
  {
    && !p.over && |p.failed| == n
    && p.now == (if n == 0 then start else AttemptEnds(turns, start, n - 1) + WaitAfter(turns, n - 1))
    && p.failures == (if n == 0 || turns[n - 1].wokenAfter.Some? then 0 else SinceWake(turns, n - 1))
    && AreAttempts(p.failed, turns, start)
  }

  // While the loop goes on, every attempt fails when its turn says, after exactly
  // the waits before it, and is announced by its place since the last wake-up.
  lemma {:induction false} EpisodeToTheSecond(turns: seq<Turn>, start: nat, n: nat)
    requires n <= |turns| && GoesOn(turns, n)
    ensures IsOnSchedule(After(turns[..n], start), turns, start, n)
  {
    if n > 0 {
      EpisodeToTheSecond(turns, start, n - 1);
      OneMoreOnSchedule(turns, start, n - 1);
    }
  }

  lemma OneMoreOnSchedule(turns: seq<Turn>, start: nat, n: nat)
    requires n < |turns| && IsOnSchedule(After(turns[..n], start), turns, start, n)
    requires !turns[n].works && turns[n].stillNeeded
    ensures IsOnSchedule(After(turns[..n + 1], start), turns, start, n + 1)
  {
    var p := After(turns[..n], start);
    StepAfter(turns, start, n);
    FailureOnSchedule(p, turns, start, n);
    MoreAttempts(p.failed, turns, start, n, Failed(p.now + turns[n].takes, NoticeFor(p.failures + 1)));
  }

  lemma FailureOnSchedule(p: Progress, turns: seq<Turn>, start: nat, n: nat)
    requires n < |turns| && IsOnSchedule(p, turns, start, n) && !turns[n].works && turns[n].stillNeeded
    ensures p.failures + 1 == SinceWake(turns, n) && p.now + turns[n].takes == AttemptEnds(turns, start, n)
    ensures IsAttempt(Failed(p.now + turns[n].takes, NoticeFor(p.failures + 1)), turns, start, n)
    ensures TurnStep(p, turns[n]) ==
            Progress(p.failed + [Failed(p.now + turns[n].takes, NoticeFor(p.failures + 1))],
                     AttemptEnds(turns, start, n) + WaitAfter(turns, n),
                     if turns[n].wokenAfter.Some? then 0 else SinceWake(turns, n), false)
  {
    CountOnSchedule(p, turns, start, n);
    NoticeExactly(SinceWake(turns, n));
    PauseExactly(turns, n);
  }

  lemma CountOnSchedule(p: Progress, turns: seq<Turn>, start: nat, n: nat)
    requires n < |turns| && IsOnSchedule(p, turns, start, n)
    ensures p.failures + 1 == SinceWake(turns, n) && p.now + turns[n].takes == AttemptEnds(turns, start, n)
  {
  }

  predicate AreAttempts(failed: seq<Failed>, turns: seq<Turn>, start: nat) {
    |failed| <= |turns| && forall k :: 0 <= k < |failed| ==> IsAttempt(failed[k], turns, start, k)
  }

  lemma MoreAttempts(failed: seq<Failed>, turns: seq<Turn>, start: nat, n: nat, f: Failed)
    requires n < |turns| && |failed| == n && AreAttempts(failed, turns, start) && IsAttempt(f, turns, start, n)
    ensures AreAttempts(failed + [f], turns, start)
  {
  }

  // It ends with the first attempt that works, which is no failure, or with the
  // first failure after which the server needs nothing more, whatever would follow.
  lemma EpisodeEndsExactly(turns: seq<Turn>, start: nat, n: nat)
    requires n < |turns| && GoesOn(turns, n)
    ensures After(turns[..n + 1], start).over <==> turns[n].works || !turns[n].stillNeeded
    ensures turns[n].works ==> Episode(turns, start) == Episode(turns[..n], start)
    ensures !turns[n].works && !turns[n].stillNeeded ==>
              |Episode(turns, start)| == n + 1 && Episode(turns, start)[n].at == AttemptEnds(turns, start, n)
  {
    EpisodeToTheSecond(turns, start, n);
    StepAfter(turns, start, n);
    if turns[n].works || !turns[n].stillNeeded {
      OverIsOver(turns, start, n + 1);
    }
  }

  // -------------------------------------------------------------------------
  // One live episode per server
  // -------------------------------------------------------------------------

  // Flags of the servers whose recovery is under way, and the live episodes.
  datatype Episodes = Episodes(flags: set<string>, live: map<nat, string>)

  datatype EpisodeEvent = Trigger(task: nat, server: string) | Over(task: nat)

  function EpisodeStep(s: Episodes, e: EpisodeEvent): Episodes {
    match e
    case Trigger(task, server) =>
      if server in s.flags || task in s.live then s else Episodes(s.flags + {server}, s.live[task := server])
    case Over(task) =>
      if task in s.live then Episodes(s.flags - {s.live[task]}, s.live - {task}) else s
  }

  function EpisodesAfter(events: seq<EpisodeEvent>): Episodes {
    if events == [] then Episodes({}, map[])
    else EpisodeStep(EpisodesAfter(events[..|events| - 1]), events[|events| - 1])
  }

  function Recovering(live: map<nat, string>): set<string> {
    set task | task in live :: live[task]
  }

  predicate OneEach(live: map<nat, string>) {
    forall a, b | a in live && b in live && live[a] == live[b] :: a == b
  }

  lemma RecoveringWithout(live: map<nat, string>, task: nat)
    requires OneEach(live) && task in live
    ensures Recovering(live - {task}) == Recovering(live) - {live[task]}
  {
    forall server | server in Recovering(live) - {live[task]} ensures server in Recovering(live - {task}) {
      var a :| a in live && live[a] == server;
      assert a in live - {task} && (live - {task})[a] == server;
    }
  }

  lemma RecoveringWith(live: map<nat, string>, task: nat, server: string)
    requires task !in live
    ensures Recovering(live[task := server]) == Recovering(live) + {server}
  {
    var more := live[task := server];
    assert more[task] == server;
    forall other | other in Recovering(live) ensures other in Recovering(more) {
      var a :| a in live && live[a] == other;
      assert a in more && more[a] == other;
    }
  }

  // At most one episode per server is live, and its flag is up exactly then.
  lemma {:induction false} OneEpisodePerServer(events: seq<EpisodeEvent>)
    ensures OneEach(EpisodesAfter(events).live)
    ensures EpisodesAfter(events).flags == Recovering(EpisodesAfter(events).live)
  {
    if events != [] {
      var before := events[..|events| - 1];
      OneEpisodePerServer(before);
      var s := EpisodesAfter(before);
      match events[|events| - 1]
      case Trigger(task, server) =>
        if server !in s.flags && task !in s.live {
          RecoveringWith(s.live, task, server);
          assert forall a :: a in s.live ==> s.live[a] in Recovering(s.live);
        }
      case Over(task) =>
        if task in s.live {
          RecoveringWithout(s.live, task);
        }
    }
  }

  // A trigger starts an episode exactly when none of the server is live, and one
  // that ends makes room for the next.
  lemma TriggerStartsExactly(events: seq<EpisodeEvent>, task: nat, server: string)
    requires task !in EpisodesAfter(events).live
    ensures var s, t := EpisodesAfter(events), EpisodesAfter(events + [Trigger(task, server)]);
            t.live == if server in Recovering(s.live) then s.live else s.live[task := server]
    ensures EpisodesAfter(events + [Trigger(task, server)] + [Over(task)]).live == EpisodesAfter(events).live
  {
    var triggered := events + [Trigger(task, server)];
    OneEpisodePerServer(events);
    assert triggered[..|events|] == events;
    assert (triggered + [Over(task)])[..|triggered|] == triggered;
  }

  // -------------------------------------------------------------------------
  // Retries inside one reconnect, in milliseconds
  // -------------------------------------------------------------------------

  const RECONNECT_RETRY_MIN_DELAY: nat := 100
  const RECONNECT_RETRY_MAX_DELAY: nat := 2000

  datatype Dial = Opened | Retryable | Fatal

  datatype Reconnected = Connection | Abandoned | Error

  function RetryDelay(retry: nat): nat {
    if retry == 0 then RECONNECT_RETRY_MIN_DELAY
    else Min(RetryDelay(retry - 1) * 2, RECONNECT_RETRY_MAX_DELAY)
  }

  function RetrySleep(retries: nat): nat {
    if retries == 0 then 0 else RetrySleep(retries - 1) + RetryDelay(retries - 1)
  }

  // A tenth of a second, doubled with every retry up to two seconds.
  lemma {:induction false} RetryDelayIsCappedPower(retry: nat)
    ensures RetryDelay(retry) == Min(100 * Pow2(retry), 2000)
  {
    if retry > 0 {
      RetryDelayIsCappedPower(retry - 1);
    }
  }

  // `current[i]` is what the look at the configuration before dial i finds,
  // `dials[i]` how that dial goes.
  method DoReconnect(maxAttempts: nat, current: seq<bool>, dials: seq<Dial>)
      returns (result: Reconnected, dialled: nat, slept: nat)
    requires maxAttempts >= 1 && |current| >= maxAttempts && |dials| >= maxAttempts
    ensures dialled <= maxAttempts
    // Every dial but the last failed in a way worth retrying, and was looked before.
    ensures forall i :: 0 <= i < dialled ==> current[i]
    ensures forall i :: 0 <= i < dialled - 1 ==> dials[i] == Retryable
    // The outcome is the last dial's, or a stale look with no dial after it.
    ensures result == Connection <==> dialled > 0 && dials[dialled - 1] == Opened
    ensures result == Abandoned
            <==> dialled < maxAttempts && !current[dialled] && (dialled == 0 || dials[dialled - 1] == Retryable)
    ensures result == Error
            <==> dialled > 0
                 && (dials[dialled - 1] == Fatal || (dials[dialled - 1] == Retryable && dialled == maxAttempts))
    ensures slept == RetrySleep(if result == Abandoned || dialled == 0 then dialled else dialled - 1)
  {
    var attempt, delay := 1, RECONNECT_RETRY_MIN_DELAY;
    dialled, slept := 0, 0;
    while true
      invariant 1 <= attempt <= maxAttempts && dialled == attempt - 1
      invariant forall i :: 0 <= i < dialled ==> current[i] && dials[i] == Retryable
      invariant delay == RetryDelay(dialled) && slept == RetrySleep(dialled)
      decreases maxAttempts - attempt
    {
      if !current[attempt - 1] {
        return Abandoned, dialled, slept;
      }
      dialled := dialled + 1;
      var dial := dials[attempt - 1];
      if dial == Opened {
        return Connection, dialled, slept;
      }
      if attempt < maxAttempts && dial == Retryable {
        slept := slept + delay;
        attempt := attempt + 1;
        delay := Min(delay * 2, RECONNECT_RETRY_MAX_DELAY);
      } else {
        return Error, dialled, slept;
      }
    }
  }
}
