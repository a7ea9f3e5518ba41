/**
 The circuit breaker with every atomic operation as a step of its own, so that calls of many
 threads overlap. Steps are sequentially consistent interleavings.
 */
module CircuitSteps {
  import opened Common
  import opened Circuit

  type ThreadId = nat

  datatype Operation = CallAllowed | OnSuccess | OnFailure | ResetNow

  // The next atomic operation of a thread inside one of the methods.
  datatype Pc =
    | CallLoadState | CallLoadTime | CallReadClock(openedAt: nat) | CallExchange
    | DrainTry | DrainGuard | AddPermits | ProbeTry | ProbeForget
    | SuccessLoadState | SuccessZero | SuccessExchange | SuccessCloseZero | SuccessClearTime
    | FailureLoadState | FailureCount | FailureExchange(expected: CircuitState)
    | FailureReadClock | FailureStamp(at: Instant)
    | ResetStoreState | ResetZero | ResetClearTime

  // The breaker's atomics and semaphore, the threads inside its methods, and
  // tallies of what happened to permits, of the transitions won and of the calls
  // let through with no permit.
  datatype Shared = Shared(
    breaker: Breaker,
    threads: map<ThreadId, Pc>,
    added: nat,
    granted: nat,
    drained: nat,
    wins: nat,
    passed: nat)

  datatype Event = Begin(t: ThreadId, op: Operation) | Tick(t: ThreadId, now: Instant)

  function FirstPc(op: Operation): Pc {
    match op
    case CallAllowed => CallLoadState
    case OnSuccess => SuccessLoadState
    case OnFailure => FailureLoadState
    case ResetNow => ResetStoreState
  }

  predicate Enabled(s: Shared, e: Event) {
    match e
    case Begin(t, _) => t !in s.threads
    case Tick(t, _) => t in s.threads
  }

  function At(s: Shared, t: ThreadId, pc: Pc): Shared {
    s.(threads := s.threads[t := pc])
  }

  function Leave(s: Shared, t: ThreadId): Shared {
    s.(threads := s.threads - {t})
  }

  function TickCall(cfg: Settings, drain: Drain, s: Shared, t: ThreadId, now: Instant): Shared
    requires t in s.threads
  {
    var b := s.breaker;
    match s.threads[t]
    case CallLoadState =>
      (match b.state
       case Closed => Leave(s, t).(passed := s.passed + 1)
       case Open => At(s, t, CallLoadTime)
       case HalfOpen => At(s, t, ProbeTry))
    case CallLoadTime => At(s, t, CallReadClock(b.openSince))
    case CallReadClock(openedAt) =>
      if SaturatingSub(now, openedAt) >= cfg.openDuration then At(s, t, CallExchange) else Leave(s, t)
    case CallExchange =>
      if b.state == Open then At(s, t, DrainTry).(breaker := b.(state := HalfOpen), wins := s.wins + 1)
      else At(s, t, ProbeTry)
    case DrainTry =>
      if b.permits > 0 then At(s, t, DrainGuard).(breaker := b.(permits := b.permits - 1)) else At(s, t, AddPermits)
    case DrainGuard =>
      // The guard goes out of scope, or is forgotten.
      (match drain
       case AsWritten => At(s, t, DrainTry).(breaker := b.(permits := b.permits + 1))
       case Forgetting => At(s, t, DrainTry).(drained := s.drained + 1))
    case AddPermits =>
      At(s, t, ProbeTry).(breaker := b.(permits := b.permits + cfg.probeCount), added := s.added + cfg.probeCount)
    case ProbeTry =>
      if b.permits > 0 then At(s, t, ProbeForget).(breaker := b.(permits := b.permits - 1)) else Leave(s, t)
    case ProbeForget => Leave(s, t).(granted := s.granted + 1)
    case _ => s
  }

  function TickReport(cfg: Settings, s: Shared, t: ThreadId, now: Instant): Shared
    requires t in s.threads
  {
    var b := s.breaker;
    match s.threads[t]
    case SuccessLoadState =>
      (match b.state
       case Closed => At(s, t, SuccessZero)
       case HalfOpen => At(s, t, SuccessExchange)
       case Open => Leave(s, t))
    case SuccessZero => Leave(s, t).(breaker := b.(failureCount := 0))
    case SuccessExchange =>
      if b.state == HalfOpen then At(s, t, SuccessCloseZero).(breaker := b.(state := Closed)) else Leave(s, t)
    case SuccessCloseZero => At(s, t, SuccessClearTime).(breaker := b.(failureCount := 0))
    case SuccessClearTime => Leave(s, t).(breaker := b.(openSince := U64_MAX))
    case FailureLoadState =>
      (match b.state
       case Closed => At(s, t, FailureCount)
       case HalfOpen => At(s, t, FailureExchange(HalfOpen))
       case Open => Leave(s, t))
    case FailureCount =>
      var counted := b.(failureCount := (b.failureCount + 1) % U32_MODULUS);
      if b.failureCount + 1 >= cfg.failureThreshold
      then At(s, t, FailureExchange(Closed)).(breaker := counted)
      else Leave(s, t).(breaker := counted)
    case FailureExchange(expected) =>
      if b.state == expected then At(s, t, FailureReadClock).(breaker := b.(state := Open)) else Leave(s, t)
    case FailureReadClock => At(s, t, FailureStamp(now))
    case FailureStamp(at) => Leave(s, t).(breaker := b.(openSince := at))
    case ResetStoreState => At(s, t, ResetZero).(breaker := b.(state := Closed))
    case ResetZero => At(s, t, ResetClearTime).(breaker := b.(failureCount := 0))
    case ResetClearTime => Leave(s, t).(breaker := b.(openSince := U64_MAX))
    case _ => s
  }

  predicate InCall(pc: Pc) {
    || pc.CallLoadState? || pc.CallLoadTime? || pc.CallReadClock? || pc.CallExchange?
    || pc.DrainTry? || pc.DrainGuard? || pc.AddPermits? || pc.ProbeTry? || pc.ProbeForget?
  }

  function Next(cfg: Settings, drain: Drain, s: Shared, e: Event): Shared
    requires Enabled(s, e)
  {
    match e
    case Begin(t, op) => At(s, t, FirstPc(op))
    case Tick(t, now) => if InCall(s.threads[t]) then TickCall(cfg, drain, s, t, now) else TickReport(cfg, s, t, now)
  }

  // -------------------------------------------------------------------------
  // Permits over every interleaving
  // -------------------------------------------------------------------------

  predicate HasPermit(pc: Pc) {
    pc.DrainGuard? || pc.ProbeForget?
  }

  predicate BeforeAdd(pc: Pc) {
    pc.DrainTry? || pc.DrainGuard? || pc.AddPermits?
  }

  function Having(threads: map<ThreadId, Pc>): set<ThreadId> {
    set t | t in threads && HasPermit(threads[t])
  }

  function StillToAdd(threads: map<ThreadId, Pc>): set<ThreadId> {
    set t | t in threads && BeforeAdd(threads[t])
  }

  function One(b: bool): nat {
    if b then 1 else 0
  }

  lemma SizesApart(before: set<ThreadId>, after: set<ThreadId>, t: ThreadId)
    requires before - {t} == after - {t}
    ensures |after| + One(t in before) == |before| + One(t in after)
  {
    assert t in before ==> before == (before - {t}) + {t};
    assert t in after ==> after == (after - {t}) + {t};
    assert t !in before ==> before == before - {t};
    assert t !in after ==> after == after - {t};
  }

  predicate SameApartFrom(threads: map<ThreadId, Pc>, t: ThreadId, after: map<ThreadId, Pc>) {
    && (forall u :: u in threads && u != t ==> u in after && after[u] == threads[u])
    && (forall u :: u in after && u != t ==> u in threads)
  }

  // Every permit ever added was granted to a probe, drained, is held by a
  // thread this moment, or is available.
  predicate PermitsConserved(s: Shared) {
    s.added == s.granted + s.drained + |Having(s.threads)| + s.breaker.permits
  }

  // Every transition won adds the probe count once, sooner or later.
  predicate WinsAdd(cfg: Settings, s: Shared) {
    |StillToAdd(s.threads)| <= s.wins && s.added == cfg.probeCount * (s.wins - |StillToAdd(s.threads)|)
  }

  lemma CallMovesOneThread(cfg: Settings, drain: Drain, s: Shared, t: ThreadId, now: Instant)
    requires t in s.threads
    ensures SameApartFrom(s.threads, t, TickCall(cfg, drain, s, t, now).threads)
  {
  }

  lemma ReportMovesOneThread(cfg: Settings, s: Shared, t: ThreadId, now: Instant)
    requires t in s.threads
    ensures SameApartFrom(s.threads, t, TickReport(cfg, s, t, now).threads)
  {
  }

  lemma OnlyOneThreadMoves(cfg: Settings, drain: Drain, s: Shared, e: Event)
    requires Enabled(s, e)
    ensures SameApartFrom(s.threads, e.t, Next(cfg, drain, s, e).threads)
  {
    if e.Tick? {
      CallMovesOneThread(cfg, drain, s, e.t, e.now);
      ReportMovesOneThread(cfg, s, e.t, e.now);
    }
  }

  predicate Within(s: Shared, t: ThreadId, p: Pc -> bool) {
    t in s.threads && p(s.threads[t])
  }

  // What one step changes: the permits added against where they went, and the
  // transitions won against the additions made for them.
  predicate Balanced(cfg: Settings, s: Shared, after: Shared, t: ThreadId) {
    var adding := t in s.threads && s.threads[t] == AddPermits;
    && after.added + s.granted + s.drained + s.breaker.permits + One(Within(s, t, HasPermit)) ==
       s.added + after.granted + after.drained + after.breaker.permits + One(Within(after, t, HasPermit))
    && after.added == s.added + (if adding then cfg.probeCount else 0)
    && after.wins + One(Within(s, t, BeforeAdd)) == s.wins + One(Within(after, t, BeforeAdd)) + One(adding)
  }

  lemma CallTickBalances(cfg: Settings, drain: Drain, s: Shared, t: ThreadId, now: Instant)
    requires t in s.threads && InCall(s.threads[t])
    ensures Balanced(cfg, s, TickCall(cfg, drain, s, t, now), t)
  {
  }

  lemma ReportTickBalances(cfg: Settings, s: Shared, t: ThreadId, now: Instant)
    requires t in s.threads && !InCall(s.threads[t])
    ensures Balanced(cfg, s, TickReport(cfg, s, t, now), t)
  {
  }

  lemma StepBalances(cfg: Settings, drain: Drain, s: Shared, e: Event)
    requires Enabled(s, e)
    ensures Balanced(cfg, s, Next(cfg, drain, s, e), e.t)
  {
    if e.Tick? {
      if InCall(s.threads[e.t]) {
        CallTickBalances(cfg, drain, s, e.t, e.now);
      } else {
        ReportTickBalances(cfg, s, e.t, e.now);
      }
    }
  }

  lemma BalancedConserves(cfg: Settings, s: Shared, after: Shared, t: ThreadId)
    requires PermitsConserved(s) && SameApartFrom(s.threads, t, after.threads) && Balanced(cfg, s, after, t)
    ensures PermitsConserved(after)
  {
    SizesApart(Having(s.threads), Having(after.threads), t);
  }

  lemma PermitsConservedStep(cfg: Settings, drain: Drain, s: Shared, e: Event)
    requires PermitsConserved(s) && Enabled(s, e)
    ensures PermitsConserved(Next(cfg, drain, s, e))
  {
    OnlyOneThreadMoves(cfg, drain, s, e);
    StepBalances(cfg, drain, s, e);
    BalancedConserves(cfg, s, Next(cfg, drain, s, e), e.t);
  }

  lemma BalancedWins(cfg: Settings, s: Shared, after: Shared, t: ThreadId)
    requires WinsAdd(cfg, s) && SameApartFrom(s.threads, t, after.threads) && Balanced(cfg, s, after, t)
    ensures WinsAdd(cfg, after)
  {
    SizesApart(StillToAdd(s.threads), StillToAdd(after.threads), t);
    var k := s.wins - |StillToAdd(s.threads)|;
    assert cfg.probeCount * (k + 1) == cfg.probeCount * k + cfg.probeCount;
  }

  lemma WinsAddStep(cfg: Settings, drain: Drain, s: Shared, e: Event)
    requires WinsAdd(cfg, s) && Enabled(s, e)
    ensures WinsAdd(cfg, Next(cfg, drain, s, e))
  {
    OnlyOneThreadMoves(cfg, drain, s, e);
    StepBalances(cfg, drain, s, e);
    BalancedWins(cfg, s, Next(cfg, drain, s, e), e.t);
  }

  ghost predicate IsRun(cfg: Settings, drain: Drain, states: seq<Shared>, events: seq<Event>) {
    && |states| == |events| + 1
    && forall i :: 0 <= i < |events| ==>
         Enabled(states[i], events[i]) && states[i + 1] == Next(cfg, drain, states[i], events[i])
  }

  // A breaker no thread is inside, with no permit on record.
  function Quiet(b: Breaker): Shared {
    Shared(b, map[], 0, 0, 0, 0, 0)
  }

  lemma {:induction false} PermitsOverRun(cfg: Settings, drain: Drain, states: seq<Shared>, events: seq<Event>, i: nat)
    requires IsRun(cfg, drain, states, events) && states[0] == Quiet(Fresh) && i < |states|
    ensures PermitsConserved(states[i]) && WinsAdd(cfg, states[i])
  {
    if i == 0 {
      assert Having(map[]) == {} && StillToAdd(map[]) == {};
    } else {
      PermitsOverRun(cfg, drain, states, events, i - 1);
      PermitsConservedStep(cfg, drain, states[i - 1], events[i - 1]);
      WinsAddStep(cfg, drain, states[i - 1], events[i - 1]);
    }
  }

  // Under every interleaving, and with either drain, the probes let through
  // never exceed the probe count times the transitions won.
  lemma ProbesAreBounded(cfg: Settings, drain: Drain, states: seq<Shared>, events: seq<Event>, i: nat)
    requires IsRun(cfg, drain, states, events) && states[0] == Quiet(Fresh) && i < |states|
    ensures states[i].granted <= cfg.probeCount * states[i].wins
    ensures states[i].breaker.permits <= cfg.probeCount * states[i].wins
  {
    PermitsOverRun(cfg, drain, states, events, i);
    var s := states[i];
    var pending := |StillToAdd(s.threads)|;
    assert cfg.probeCount * (s.wins - pending) <= cfg.probeCount * s.wins by {
      assert cfg.probeCount * s.wins == cfg.probeCount * (s.wins - pending) + cfg.probeCount * pending;
    }
  }

  // The drain as written never uses a permit up, in any run.
  lemma {:induction false} AsWrittenDrainsNothing(cfg: Settings, states: seq<Shared>, events: seq<Event>, i: nat)
    requires IsRun(cfg, AsWritten, states, events) && states[0] == Quiet(Fresh) && i < |states|
    ensures states[i].drained == 0
  {
    if i > 0 {
      AsWrittenDrainsNothing(cfg, states, events, i - 1);
      assert states[i] == Next(cfg, AsWritten, states[i - 1], events[i - 1]);
    }
  }

  // -------------------------------------------------------------------------
  // A thread running alone
  // -------------------------------------------------------------------------

  function Alone(cfg: Settings, drain: Drain, s: Shared, t: ThreadId, now: Instant, ticks: nat): Shared
    decreases ticks
  {
    if ticks == 0 || t !in s.threads then s else Alone(cfg, drain, Next(cfg, drain, s, Tick(t, now)), t, now, ticks - 1)
  }

  lemma {:induction false} AloneAdds(cfg: Settings, drain: Drain, s: Shared, t: ThreadId, now: Instant, m: nat, n: nat)
    ensures Alone(cfg, drain, s, t, now, m + n) == Alone(cfg, drain, Alone(cfg, drain, s, t, now, m), t, now, n)
    decreases m
  {
    if m > 0 && t in s.threads {
      AloneAdds(cfg, drain, Next(cfg, drain, s, Tick(t, now)), t, now, m - 1, n);
    }
  }

  // As written, a turn of the drain loop that gets a permit leaves everything
  // as it was, so a thread left alone in the loop is still there after any
  // number of turns, unless it entered with no permit left.
  lemma {:induction false} AsWrittenLoopIsEndless(
    cfg: Settings, s: Shared, t: ThreadId, now: Instant, turns: nat)
    requires t in s.threads && s.threads[t] == DrainTry
    ensures s.breaker.permits > 0 ==> Alone(cfg, AsWritten, s, t, now, 2 * turns) == s
    ensures s.breaker.permits == 0 ==> Alone(cfg, AsWritten, s, t, now, 1) == At(s, t, AddPermits)
  {
    assert Alone(cfg, AsWritten, s, t, now, 1) == Next(cfg, AsWritten, s, Tick(t, now));
    if s.breaker.permits > 0 && turns > 0 {
      var holding := Next(cfg, AsWritten, s, Tick(t, now));
      assert holding.threads[t] == DrainGuard;
      var back := Next(cfg, AsWritten, holding, Tick(t, now));
      assert back.threads == s.threads;
      assert back == s;
      assert Alone(cfg, AsWritten, s, t, now, 2 * turns) == Alone(cfg, AsWritten, back, t, now, 2 * (turns - 1));
      AsWrittenLoopIsEndless(cfg, s, t, now, turns - 1);
    }
  }

  // With a forgetting drain the loop ends and takes every leftover with it.
  lemma {:induction false} ForgettingLoopEnds(cfg: Settings, s: Shared, t: ThreadId, now: Instant)
    requires t in s.threads && s.threads[t] == DrainTry
    ensures Alone(cfg, Forgetting, s, t, now, 2 * s.breaker.permits + 1)
         == At(s, t, AddPermits).(breaker := s.breaker.(permits := 0), drained := s.drained + s.breaker.permits)
    decreases s.breaker.permits
  {
    if s.breaker.permits > 0 {
      var n := s.breaker.permits;
      var holding := Next(cfg, Forgetting, s, Tick(t, now));
      var next := Next(cfg, Forgetting, holding, Tick(t, now));
      assert holding.threads[t] == DrainGuard;
      assert next == s.(breaker := s.breaker.(permits := n - 1), drained := s.drained + 1) by {
        assert next.threads == s.threads;
      }
      assert Alone(cfg, Forgetting, s, t, now, 2 * n + 1) == Alone(cfg, Forgetting, next, t, now, 2 * (n - 1) + 1);
      ForgettingLoopEnds(cfg, next, t, now);
    } else {
      assert Alone(cfg, Forgetting, s, t, now, 1) == Next(cfg, Forgetting, s, Tick(t, now));
    }
  }

  function Started(b: Breaker, t: ThreadId, op: Operation): Shared {
    At(Quiet(b), t, FirstPc(op))
  }

  function AsEvent(op: Operation, now: Instant): Circuit.Event {
    match op
    case CallAllowed => Call(now)
    case OnSuccess => Success
    case OnFailure => Failure(now)
    case ResetNow => Reset
  }

  // One tick of thread t, or none when it has left.
  function Ticked(cfg: Settings, drain: Drain, s: Shared, t: ThreadId, now: Instant): Shared {
    if t in s.threads then Next(cfg, drain, s, Tick(t, now)) else s
  }

  lemma AloneIsTicks(cfg: Settings, drain: Drain, s: Shared, t: ThreadId, now: Instant, n: nat)
    ensures Alone(cfg, drain, s, t, now, n + 1) == Alone(cfg, drain, Ticked(cfg, drain, s, t, now), t, now, n)
  {
  }

  lemma FourTicks(cfg: Settings, drain: Drain, s: Shared, t: ThreadId, now: Instant)
    ensures var two := Ticked(cfg, drain, Ticked(cfg, drain, s, t, now), t, now);
            Alone(cfg, drain, s, t, now, 4) == Ticked(cfg, drain, Ticked(cfg, drain, two, t, now), t, now)
  {
    var one := Ticked(cfg, drain, s, t, now);
    var two := Ticked(cfg, drain, one, t, now);
    var three := Ticked(cfg, drain, two, t, now);
    AloneIsTicks(cfg, drain, s, t, now, 3);
    AloneIsTicks(cfg, drain, one, t, now, 2);
    AloneIsTicks(cfg, drain, two, t, now, 1);
    AloneIsTicks(cfg, drain, three, t, now, 0);
  }

  lemma FiveTicks(cfg: Settings, drain: Drain, s: Shared, t: ThreadId, now: Instant)
    ensures Alone(cfg, drain, s, t, now, 5) ==
            Ticked(cfg, drain, Alone(cfg, drain, s, t, now, 4), t, now)
  {
    AloneAdds(cfg, drain, s, t, now, 4, 1);
    AloneIsTicks(cfg, drain, Alone(cfg, drain, s, t, now, 4), t, now, 0);
  }

  lemma LoneSuccess(cfg: Settings, drain: Drain, b: Breaker, t: ThreadId, now: Instant)
    ensures Alone(cfg, drain, Started(b, t, OnSuccess), t, now, 4) == Quiet(Circuit.Step(cfg, drain, b, Success).0)
  {
    FourTicks(cfg, drain, Started(b, t, OnSuccess), t, now);
  }

  // The counting of a failure on a closed breaker, up to the clock reading.
  lemma LoneCount(cfg: Settings, drain: Drain, b: Breaker, t: ThreadId, now: Instant)
    requires b.state == Closed && b.failureCount + 1 < U32_MODULUS
    ensures var counted := b.(failureCount := b.failureCount + 1);
            Alone(cfg, drain, Started(b, t, OnFailure), t, now, 4) ==
            if b.failureCount + 1 >= cfg.failureThreshold
            then At(Quiet(counted.(state := Open)), t, FailureStamp(now)) else Quiet(counted)
  {
    FourTicks(cfg, drain, Started(b, t, OnFailure), t, now);
  }

  lemma LoneFailure(cfg: Settings, drain: Drain, b: Breaker, t: ThreadId, now: Instant)
    requires b.failureCount + 1 < U32_MODULUS
    ensures Alone(cfg, drain, Started(b, t, OnFailure), t, now, 5) == Quiet(Circuit.Step(cfg, drain, b, Failure(now)).0)
  {
    FiveTicks(cfg, drain, Started(b, t, OnFailure), t, now);
    if b.state == Closed {
      LoneCount(cfg, drain, b, t, now);
    } else {
      FourTicks(cfg, drain, Started(b, t, OnFailure), t, now);
    }
  }

  lemma LoneReset(cfg: Settings, drain: Drain, b: Breaker, t: ThreadId, now: Instant)
    ensures Alone(cfg, drain, Started(b, t, ResetNow), t, now, 4) == Quiet(Circuit.Step(cfg, drain, b, Reset).0)
  {
    FourTicks(cfg, drain, Started(b, t, ResetNow), t, now);
  }

  // A report run alone, from its first atomic operation to its last, has the
  // effect the one-step model gives it.
  lemma LoneReportIsOneStep(cfg: Settings, drain: Drain, b: Breaker, t: ThreadId, op: Operation, now: Instant)
    requires op != CallAllowed && b.failureCount + 1 < U32_MODULUS
    ensures Alone(cfg, drain, Started(b, t, op), t, now, 5)
         == Quiet(Circuit.Step(cfg, drain, b, AsEvent(op, now)).0)
  {
    FiveTicks(cfg, drain, Started(b, t, op), t, now);
    match op
    case OnSuccess => LoneSuccess(cfg, drain, b, t, now);
    case OnFailure => LoneFailure(cfg, drain, b, t, now);
    case ResetNow => LoneReset(cfg, drain, b, t, now);
  }

  lemma LoneProbe(cfg: Settings, drain: Drain, s: Shared, t: ThreadId, now: Instant)
    requires t in s.threads && s.threads[t] == ProbeTry
    ensures Alone(cfg, drain, s, t, now, 2)
         == Leave(s, t).(breaker := TryProbe(s.breaker).0, granted := s.granted + One(TryProbe(s.breaker).1 == Allowed))
  {
    var s1 := Next(cfg, drain, s, Tick(t, now));
    assert Alone(cfg, drain, s, t, now, 2) == Alone(cfg, drain, s1, t, now, 1);
    if t in s1.threads {
      assert s1.threads[t] == ProbeForget;
      var s2 := Next(cfg, drain, s1, Tick(t, now));
      assert Alone(cfg, drain, s1, t, now, 1) == s2;
      assert s2.threads == s.threads - {t};
    }
  }

  // The drain loop left alone with leftovers it can use up, or with none at all.
  lemma LoneDrain(cfg: Settings, drain: Drain, s: Shared, t: ThreadId, now: Instant)
    requires t in s.threads && s.threads[t] == DrainTry
    requires drain == AsWritten ==> s.breaker.permits == 0
    ensures Alone(cfg, drain, s, t, now, 2 * s.breaker.permits + 1)
         == At(s, t, AddPermits).(breaker := s.breaker.(permits := 0), drained := s.drained + s.breaker.permits)
  {
    match drain
    case AsWritten => AsWrittenLoopIsEndless(cfg, s, t, now, 0);
    case Forgetting => ForgettingLoopEnds(cfg, s, t, now);
  }

  lemma LoneTransition(cfg: Settings, drain: Drain, s: Shared, t: ThreadId, now: Instant)
    requires t in s.threads && s.threads[t] == DrainTry
    requires drain == AsWritten ==> s.breaker.permits == 0
    ensures var b := s.breaker.(permits := cfg.probeCount);
            var last := Alone(cfg, drain, s, t, now, 2 * s.breaker.permits + 1 + 1 + 2);
            last.threads == s.threads - {t} && last.breaker == TryProbe(b).0
            && last.granted == s.granted + One(TryProbe(b).1 == Allowed) && last.passed == s.passed
  {
    var n := 2 * s.breaker.permits + 1;
    LoneDrain(cfg, drain, s, t, now);
    var emptied := Alone(cfg, drain, s, t, now, n);
    var filled := Next(cfg, drain, emptied, Tick(t, now));
    assert Alone(cfg, drain, emptied, t, now, 1) == filled;
    AloneAdds(cfg, drain, s, t, now, n, 1);
    AloneAdds(cfg, drain, s, t, now, n + 1, 2);
    LoneProbe(cfg, drain, filled, t, now);
    assert filled.threads - {t} == s.threads - {t};
  }

  // The first four operations of a call on an open breaker: it gets to the drain
  // loop with the transition won, or leaves.
  lemma LoneApproach(cfg: Settings, drain: Drain, b: Breaker, t: ThreadId, now: Instant)
    requires b.state == Open
    ensures var four := Alone(cfg, drain, Started(b, t, CallAllowed), t, now, 4);
            if SaturatingSub(now, b.openSince) >= cfg.openDuration
            then four == At(Quiet(b.(state := HalfOpen)), t, DrainTry).(wins := 1)
            else four == Quiet(b)
  {
    FourTicks(cfg, drain, Started(b, t, CallAllowed), t, now);
  }

  lemma LoneRestOfCall(cfg: Settings, drain: Drain, b: Breaker, t: ThreadId, now: Instant)
    requires b.state == Open && Circuit.Step(cfg, drain, b, Call(now)).1 != Spinning
    ensures var last := Alone(cfg, drain, Started(b, t, CallAllowed), t, now, 4 + (2 * b.permits + 4));
            var (after, reply) := Circuit.Step(cfg, drain, b, Call(now));
            last.threads == map[] && last.breaker == after && last.passed == 0
            && last.granted == One(reply == Allowed)
  {
    LoneApproach(cfg, drain, b, t, now);
    AloneAdds(cfg, drain, Started(b, t, CallAllowed), t, now, 4, 2 * b.permits + 4);
    if SaturatingSub(now, b.openSince) >= cfg.openDuration {
      LoneTransition(cfg, drain, At(Quiet(b.(state := HalfOpen)), t, DrainTry).(wins := 1), t, now);
      assert b.(state := HalfOpen).(permits := cfg.probeCount) == b.(state := HalfOpen, permits := cfg.probeCount);
    }
  }

  // A call run alone, with either drain, ends as the one-step model says and is
  // let through exactly when that model lets it: on a permit, or on a closed
  // breaker without one.
  lemma LoneCallIsOneStep(cfg: Settings, drain: Drain, b: Breaker, t: ThreadId, now: Instant)
    requires Circuit.Step(cfg, drain, b, Call(now)).1 != Spinning
    ensures var last := Alone(cfg, drain, Started(b, t, CallAllowed), t, now, 4 + (2 * b.permits + 4));
            var (after, reply) := Circuit.Step(cfg, drain, b, Call(now));
            && last.threads == map[] && last.breaker == after
            && last.granted + last.passed == One(reply == Allowed)
            && last.granted == One(reply == Allowed && b.state != Closed)
  {
    var s := Started(b, t, CallAllowed);
    if b.state == Open {
      LoneRestOfCall(cfg, drain, b, t, now);
    } else {
      AloneIsTicks(cfg, drain, s, t, now, 2 * b.permits + 7);
      if b.state == HalfOpen {
        var s1 := Ticked(cfg, drain, s, t, now);
        LoneProbe(cfg, drain, s1, t, now);
        AloneAdds(cfg, drain, s1, t, now, 2, 2 * b.permits + 5);
      }
    }
  }

  // A call the one-step model calls spinning is in the drain loop after any
  // number of turns, with the transition won and nothing else changed.
  lemma LoneCallSpins(cfg: Settings, b: Breaker, t: ThreadId, now: Instant, turns: nat)
    requires Circuit.Step(cfg, AsWritten, b, Call(now)).1 == Spinning
    ensures Alone(cfg, AsWritten, Started(b, t, CallAllowed), t, now, 4 + 2 * turns)
         == At(Quiet(Circuit.Step(cfg, AsWritten, b, Call(now)).0), t, DrainTry).(wins := 1)
  {
    LoneApproach(cfg, AsWritten, b, t, now);
    AloneAdds(cfg, AsWritten, Started(b, t, CallAllowed), t, now, 4, 2 * turns);
    AsWrittenLoopIsEndless(cfg, At(Quiet(b.(state := HalfOpen)), t, DrainTry).(wins := 1), t, now, turns);
  }

  // -------------------------------------------------------------------------
  // Late stores
  // -------------------------------------------------------------------------

  // Outside the closed state the counter still holds the failures that opened it.
  lemma {:induction false} StaleCountStaysHigh(cfg: Settings, drain: Drain, trace: seq<Circuit.Event>)
    ensures var b := Run(cfg, drain, trace); b.state != Closed ==> b.failureCount >= Threshold(cfg)
  {
    if trace != [] {
      StaleCountStaysHigh(cfg, drain, trace[..|trace| - 1]);
    }
  }

  // Open means an opening time is set, or a thread is about to set it.
  ghost predicate OpenHasTime(s: Shared) {
    s.breaker.state == Open ==> s.breaker.openSince < U64_MAX || Stamping(s)
  }

  predicate AboutToStamp(pc: Pc) {
    pc.FailureReadClock? || pc.FailureStamp?
  }

  ghost predicate Stamping(s: Shared) {
    exists t :: t in s.threads && AboutToStamp(s.threads[t])
  }

  // A success or a reset clears the opening time after a failure has opened the
  // breaker again and set it.
  ghost predicate ClearsWhileOpen(s: Shared, e: Event) {
    && e.Tick? && e.t in s.threads && (s.threads[e.t] == SuccessClearTime || s.threads[e.t] == ResetClearTime)
    && s.breaker.state == Open && !Stamping(s)
  }

  lemma StampingAfter(s: Shared, after: Shared, t: ThreadId)
    requires SameApartFrom(s.threads, t, after.threads)
    requires t in s.threads && AboutToStamp(s.threads[t]) ==> t in after.threads && AboutToStamp(after.threads[t])
    ensures Stamping(s) ==> Stamping(after)
    ensures Stamping(after) && !(t in after.threads && AboutToStamp(after.threads[t])) ==> Stamping(s)
  {
    if Stamping(s) {
      var u :| u in s.threads && AboutToStamp(s.threads[u]);
      assert u in after.threads && AboutToStamp(after.threads[u]);
    }
    if Stamping(after) && !(t in after.threads && AboutToStamp(after.threads[t])) {
      var u :| u in after.threads && AboutToStamp(after.threads[u]);
      assert u != t && s.threads[u] == after.threads[u];
    }
  }

  lemma CallKeepsTime(cfg: Settings, drain: Drain, s: Shared, t: ThreadId, now: Instant)
    requires t in s.threads && InCall(s.threads[t]) && OpenHasTime(s)
    ensures OpenHasTime(TickCall(cfg, drain, s, t, now))
  {
    var after := TickCall(cfg, drain, s, t, now);
    OnlyOneThreadMoves(cfg, drain, s, Tick(t, now));
    StampingAfter(s, after, t);
    assert after.breaker.openSince == s.breaker.openSince;
    assert after.breaker.state == Open ==> s.breaker.state == Open;
  }

  lemma ReportKeepsTimeExactly(cfg: Settings, drain: Drain, s: Shared, t: ThreadId, now: Instant)
    requires t in s.threads && !InCall(s.threads[t]) && OpenHasTime(s)
    ensures OpenHasTime(TickReport(cfg, s, t, now)) <==> !ClearsWhileOpen(s, Tick(t, now))
  {
    var after := TickReport(cfg, s, t, now);
    OnlyOneThreadMoves(cfg, drain, s, Tick(t, now));
    if s.threads[t].FailureStamp? {
      assert after.breaker.openSince < U64_MAX;
    } else {
      StampingAfter(s, after, t);
      if t in after.threads && AboutToStamp(after.threads[t]) {
        assert Stamping(after);
      }
    }
  }

  // A step keeps the opening time of an open breaker exactly when it is not a
  // late store of that kind.
  lemma OpenKeepsTimeExactly(cfg: Settings, drain: Drain, s: Shared, e: Event)
    requires OpenHasTime(s) && Enabled(s, e)
    ensures OpenHasTime(Next(cfg, drain, s, e)) <==> !ClearsWhileOpen(s, e)
  {
    match e
    case Begin(t, op) =>
      OnlyOneThreadMoves(cfg, drain, s, e);
      StampingAfter(s, Next(cfg, drain, s, e), t);
    case Tick(t, now) =>
      if InCall(s.threads[t]) {
        CallKeepsTime(cfg, drain, s, t, now);
      } else {
        ReportKeepsTimeExactly(cfg, drain, s, t, now);
      }
  }

  // Over every run the breaker always has its opening time while it is open,
  // exactly when no late store comes while it is open again.
  lemma {:induction false} OpenAlwaysHasTimeExactly(
    cfg: Settings, drain: Drain, states: seq<Shared>, events: seq<Event>)
    requires IsRun(cfg, drain, states, events) && OpenHasTime(states[0])
    ensures (forall i :: 0 <= i < |states| ==> OpenHasTime(states[i]))
            <==> (forall i :: 0 <= i < |events| ==> !ClearsWhileOpen(states[i], events[i]))
  {
    if forall i :: 0 <= i < |states| ==> OpenHasTime(states[i]) {
      forall i | 0 <= i < |events| ensures !ClearsWhileOpen(states[i], events[i]) {
        assert OpenHasTime(states[i]) && OpenHasTime(states[i + 1]);
        OpenKeepsTimeExactly(cfg, drain, states[i], events[i]);
      }
    }
    if forall i :: 0 <= i < |events| ==> !ClearsWhileOpen(states[i], events[i]) {
      forall i | 0 <= i < |states| ensures OpenHasTime(states[i]) {
        TimeKeptUpTo(cfg, drain, states, events, i);
      }
    }
  }

  lemma {:induction false} TimeKeptUpTo(
    cfg: Settings, drain: Drain, states: seq<Shared>, events: seq<Event>, i: nat)
    requires IsRun(cfg, drain, states, events) && OpenHasTime(states[0]) && i < |states|
    requires forall k :: 0 <= k < |events| ==> !ClearsWhileOpen(states[k], events[k])
    ensures OpenHasTime(states[i])
  {
    if i > 0 {
      TimeKeptUpTo(cfg, drain, states, events, i - 1);
      OpenKeepsTimeExactly(cfg, drain, states[i - 1], events[i - 1]);
    }
  }

  // A success or a reset closes the breaker and is overtaken before its two
  // stores; a failure, still counting from the old total, opens it again and
  // stamps the time; then the late stores clear the counter and the time.
  function FirstStore(op: Operation): Pc {
    if op == OnSuccess then SuccessCloseZero else ResetZero
  }

  function LastStore(op: Operation): Pc {
    if op == OnSuccess then SuccessClearTime else ResetClearTime
  }

  // A reset has no exchange of its own, so it has no state 2.
  function OvertakenState(op: Operation, b: Breaker, now: Instant, k: nat): Shared {
    var closed := b.(state := Closed);
    var counted := closed.(failureCount := (b.failureCount + 1) % U32_MODULUS);
    var reopened := counted.(state := Open);
    var at := (c: Breaker, threads: map<ThreadId, Pc>) => Quiet(c).(threads := threads);
    match k
    case 0 => Quiet(b)
    case 1 => at(b, map[0 := FirstPc(op)])
    case 2 => at(b, map[0 := SuccessExchange])
    case 3 => at(closed, map[0 := FirstStore(op)])
    case 4 => at(closed, map[0 := FirstStore(op), 1 := FailureLoadState])
    case 5 => at(closed, map[0 := FirstStore(op), 1 := FailureCount])
    case 6 => at(counted, map[0 := FirstStore(op), 1 := FailureExchange(Closed)])
    case 7 => at(reopened, map[0 := FirstStore(op), 1 := FailureReadClock])
    case 8 => at(reopened, map[0 := FirstStore(op), 1 := FailureStamp(now)])
    case 9 => at(reopened.(openSince := now), map[0 := FirstStore(op)])
    case 10 => at(reopened.(openSince := now, failureCount := 0), map[0 := LastStore(op)])
    case _ => Quiet(reopened.(openSince := U64_MAX, failureCount := 0))
  }

  function OvertakenEvent(op: Operation, now: Instant, k: nat): Event {
    match k
    case 0 => Begin(0, op)
    case 3 => Begin(1, OnFailure)
    case 1 => Tick(0, now)
    case 2 => Tick(0, now)
    case 9 => Tick(0, now)
    case 10 => Tick(0, now)
    case _ => Tick(1, now)
  }

  // The place of step k in the tables above.
  function Place(op: Operation, k: nat): nat {
    if op == ResetNow && k >= 2 then k + 1 else k
  }

  predicate CanOvertake(cfg: Settings, op: Operation, b: Breaker) {
    && b.failureCount + 1 >= cfg.failureThreshold
    && ((op == OnSuccess && b.state == HalfOpen) || (op == ResetNow && b.state != Closed))
  }

  lemma OvertakenClose(cfg: Settings, drain: Drain, op: Operation, b: Breaker, now: Instant, k: nat)
    requires CanOvertake(cfg, op, b) && k < 3 && (op == ResetNow ==> k == 0)
    ensures Enabled(OvertakenState(op, b, now, k), OvertakenEvent(op, now, k))
    ensures OvertakenState(op, b, now, k + 1)
         == Next(cfg, drain, OvertakenState(op, b, now, k), OvertakenEvent(op, now, k))
  {
  }

  lemma OvertakenReopen(cfg: Settings, drain: Drain, op: Operation, b: Breaker, now: Instant, k: nat)
    requires CanOvertake(cfg, op, b) && 3 <= k < 7
    ensures Enabled(OvertakenState(op, b, now, k), OvertakenEvent(op, now, k))
    ensures OvertakenState(op, b, now, k + 1)
         == Next(cfg, drain, OvertakenState(op, b, now, k), OvertakenEvent(op, now, k))
  {
  }

  lemma OvertakenStores(cfg: Settings, drain: Drain, op: Operation, b: Breaker, now: Instant, k: nat)
    requires CanOvertake(cfg, op, b) && 7 <= k < 11
    ensures Enabled(OvertakenState(op, b, now, k), OvertakenEvent(op, now, k))
    ensures OvertakenState(op, b, now, k + 1)
         == Next(cfg, drain, OvertakenState(op, b, now, k), OvertakenEvent(op, now, k))
  {
  }

  lemma OvertakenStep(cfg: Settings, drain: Drain, op: Operation, b: Breaker, now: Instant, k: nat)
    requires CanOvertake(cfg, op, b) && k < 11 && (op == ResetNow ==> k != 1 && k != 2)
    ensures Enabled(OvertakenState(op, b, now, k), OvertakenEvent(op, now, k))
    ensures OvertakenState(op, b, now, k + 1)
         == Next(cfg, drain, OvertakenState(op, b, now, k), OvertakenEvent(op, now, k))
  {
    if k < 3 {
      OvertakenClose(cfg, drain, op, b, now, k);
    } else if k < 7 {
      OvertakenReopen(cfg, drain, op, b, now, k);
    } else {
      OvertakenStores(cfg, drain, op, b, now, k);
    }
  }

  lemma ResetFirstStep(cfg: Settings, drain: Drain, b: Breaker, now: Instant)
    ensures OvertakenState(ResetNow, b, now, 3)
         == Next(cfg, drain, OvertakenState(ResetNow, b, now, 1), OvertakenEvent(ResetNow, now, 1))
  {
  }

  // From every breaker that is not closed, one overlapping failure and a success
  // or reset that closes it leave it open with no opening time and no thread
  // inside: from then on it rejects every call until it is reset again.
  lemma LateStoresStrandTheBreaker(
    cfg: Settings, drain: Drain, history: seq<Circuit.Event>, op: Operation, now: Instant)
      returns (states: seq<Shared>, events: seq<Event>)
    requires cfg.openDuration > 0
    requires (op == OnSuccess && Run(cfg, drain, history).state == HalfOpen)
             || (op == ResetNow && Run(cfg, drain, history).state != Closed)
    ensures IsRun(cfg, drain, states, events) && states[0] == Quiet(Run(cfg, drain, history))
    ensures var last := states[|states| - 1];
            && last.threads == map[] && last.breaker.state == Open && last.breaker.openSince == U64_MAX
            && forall later: seq<Circuit.Event>, t: Instant :: Reset !in later ==>
                 Circuit.Step(cfg, drain, RunFrom(cfg, drain, last.breaker, later), Call(t)).1 == Rejected
  {
    var b := Run(cfg, drain, history);
    StaleCountStaysHigh(cfg, drain, history);
    var n := if op == ResetNow then 10 else 11;
    states := seq(n + 1, k requires 0 <= k => OvertakenState(op, b, now, Place(op, k)));
    events := seq(n, k requires 0 <= k => OvertakenEvent(op, now, Place(op, k)));
    forall i | 0 <= i < |events|
      ensures Enabled(states[i], events[i]) && states[i + 1] == Next(cfg, drain, states[i], events[i])
    {
      if op == ResetNow && i == 1 {
        ResetFirstStep(cfg, drain, b, now);
      } else {
        OvertakenStep(cfg, drain, op, b, now, Place(op, i));
      }
    }
    var stuck := states[n].breaker;
    forall later: seq<Circuit.Event>, t: Instant | Reset !in later
      ensures Circuit.Step(cfg, drain, RunFrom(cfg, drain, stuck, later), Call(t)).1 == Rejected
    {
      OpenWithoutTimeIsStuck(cfg, drain, stuck, later, t);
    }
  }
}
