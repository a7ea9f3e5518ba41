/**
 What the circuit breaker answers to a call, read off the history of calls and reports.
 */
module CircuitReplies {
  import opened Common
  import opened Circuit

  // -------------------------------------------------------------------------
  // The answer by what the history says
  // -------------------------------------------------------------------------

  // The open duration is over at `now` for a breaker that opened at `since`.
  predicate IsOver(cfg: Settings, since: Instant, now: Instant) {
    cfg.openDuration == 0 || now >= since + cfg.openDuration
  }

  // With the drain the comment describes, a call is let through exactly when the
  // breaker is closed, when the open duration since it last opened is over, or
  // when its half-open window has let fewer through than the probe count; in the
  // last two cases there must be probes at all.
  lemma AllowedExactly(cfg: Settings, trace: seq<Event>, now: Instant)
    ensures var before, reply := Run(cfg, Forgetting, trace), LastReply(cfg, Forgetting, trace + [Call(now)]);
            && (before.state == Open ==> OpenedAt(cfg, Forgetting, trace).Some?)
            && (reply == Allowed <==>
                  match before.state
                  case Closed => true
                  case Open => IsOver(cfg, OpenedAt(cfg, Forgetting, trace).value, now) && cfg.probeCount > 0
                  case HalfOpen => AdmittedInWindow(cfg, Forgetting, trace) < cfg.probeCount)
            && (reply != Allowed ==> reply == Rejected)
  {
    RunOn(cfg, Forgetting, trace, Call(now));
    OpenRemembersWhen(cfg, Forgetting, trace);
    WindowAdmitsProbeCount(cfg, trace);
  }

  // As written it answers the same, unless it does not return.
  lemma AsWrittenAnswersTheSame(cfg: Settings, trace: seq<Event>, now: Instant)
    requires NeverSpins(cfg, trace)
    ensures LastReply(cfg, AsWritten, trace + [Call(now)]) == Spinning
            || LastReply(cfg, AsWritten, trace + [Call(now)]) == LastReply(cfg, Forgetting, trace + [Call(now)])
  {
    AgreeWhileNoCallSpins(cfg, trace);
    RunOn(cfg, AsWritten, trace, Call(now));
    RunOn(cfg, Forgetting, trace, Call(now));
    DrainsDifferOnlyOnLeftovers(cfg, Run(cfg, AsWritten, trace), Call(now));
  }

  // -------------------------------------------------------------------------
  // A reference form: no counter, no stored time, no permits
  // -------------------------------------------------------------------------

  datatype Mode = Passing | Blocking(since: Instant) | Probing(used: nat)

  predicate LetsThrough(cfg: Settings, mode: Mode, now: Instant) {
    match mode
    case Passing => true
    case Blocking(since) => IsOver(cfg, since, now) && cfg.probeCount > 0
    case Probing(used) => used < cfg.probeCount
  }

  // The failures since the last success or reset decide when it blocks; while it
  // blocks only a call at the right time or a reset changes anything; the first
  // report after that decides the window.
  function ModeAfter(cfg: Settings, trace: seq<Event>): Mode {
    if trace == [] then Passing
    else
      var mode := ModeAfter(cfg, trace[..|trace| - 1]);
      match trace[|trace| - 1]
      case Reset => Passing
      case Success => if mode.Blocking? then mode else Passing
      case Failure(now) =>
        if mode.Blocking? || (mode.Passing? && FailureRun(trace) < Threshold(cfg)) then mode else Blocking(now)
      case Call(now) =>
        var admitted := if LetsThrough(cfg, mode, now) then 1 else 0;
        match mode
        case Passing => Passing
        case Blocking(since) => if IsOver(cfg, since, now) then Probing(admitted) else mode
        case Probing(used) => Probing(used + admitted)
  }

  // The breaker stands for such a mode.
  predicate StandsFor(cfg: Settings, b: Breaker, mode: Mode) {
    match mode
    case Passing => b.state == Closed
    case Blocking(since) => b.state == Open && b.openSince == since
    case Probing(used) => b.state == HalfOpen && used + b.permits == cfg.probeCount
  }

  // Over every history the breaker is in the mode of the reference form, and
  // answers every call as that form does.
  lemma {:induction false} RefinesReference(cfg: Settings, trace: seq<Event>)
    ensures StandsFor(cfg, Run(cfg, Forgetting, trace), ModeAfter(cfg, trace))
    ensures trace != [] && trace[|trace| - 1].Call? ==>
              var mode, now := ModeAfter(cfg, trace[..|trace| - 1]), trace[|trace| - 1].now;
              LastReply(cfg, Forgetting, trace) == if LetsThrough(cfg, mode, now) then Allowed else Rejected
  {
    if trace != [] {
      RefinesReference(cfg, trace[..|trace| - 1]);
      ClosedCountsFailures(cfg, Forgetting, trace[..|trace| - 1]);
    }
  }

  // -------------------------------------------------------------------------
  // Stretches of a history
  // -------------------------------------------------------------------------

  // A stretch of events from a breaker that is somewhere already.
  function RunOver(cfg: Settings, drain: Drain, b: Breaker, rest: seq<Event>): Breaker {
    if rest == [] then b
    else Step(cfg, drain, RunOver(cfg, drain, b, rest[..|rest| - 1]), rest[|rest| - 1]).0
  }

  lemma {:induction false} RunInParts(cfg: Settings, drain: Drain, before: seq<Event>, rest: seq<Event>)
    ensures Run(cfg, drain, before + rest) == RunOver(cfg, drain, Run(cfg, drain, before), rest)
  {
    if rest == [] {
      assert before + rest == before;
    } else {
      assert (before + rest)[..|before + rest| - 1] == before + rest[..|rest| - 1];
      RunInParts(cfg, drain, before, rest[..|rest| - 1]);
    }
  }

  // A history after which the count of failures starts over: none at all, or one
  // that ends with a reset or with a success in a half-open window.
  predicate StartsOver(cfg: Settings, drain: Drain, trace: seq<Event>) {
    trace == []
    || trace[|trace| - 1] == Reset
    || (trace[|trace| - 1] == Success && Run(cfg, drain, trace[..|trace| - 1]).state == HalfOpen)
  }

  lemma StartingOverCloses(cfg: Settings, drain: Drain, trace: seq<Event>)
    requires StartsOver(cfg, drain, trace)
    ensures Run(cfg, drain, trace).state == Closed && Run(cfg, drain, trace).failureCount == 0
  {
  }

  predicate NeverTrips(cfg: Settings, rest: seq<Event>) {
    forall k :: 0 <= k <= |rest| ==> FailureRun(rest[..k]) < Threshold(cfg)
  }

  lemma {:induction false} StaysClosed(cfg: Settings, drain: Drain, b: Breaker, rest: seq<Event>)
    requires b.state == Closed && b.failureCount == 0 && NeverTrips(cfg, rest)
    ensures var after := RunOver(cfg, drain, b, rest);
            after.state == Closed && after.failureCount == FailureRun(rest)
  {
    if rest != [] {
      var before := rest[..|rest| - 1];
      forall k | 0 <= k <= |before| ensures FailureRun(before[..k]) < Threshold(cfg) {
        assert before[..k] == rest[..k];
      }
      StaysClosed(cfg, drain, b, before);
      assert rest[..|rest|] == rest;
      assert FailureRun(rest) < Threshold(cfg);
    }
  }

  // From there on every call is let through as long as no threshold of failures
  // in a row has come, whatever came before.
  lemma PassesUntilTripped(cfg: Settings, drain: Drain, before: seq<Event>, rest: seq<Event>, now: Instant)
    requires StartsOver(cfg, drain, before) && NeverTrips(cfg, rest)
    ensures Run(cfg, drain, before + rest).state == Closed
    ensures LastReply(cfg, drain, before + rest + [Call(now)]) == Allowed
  {
    StartingOverCloses(cfg, drain, before);
    RunInParts(cfg, drain, before, rest);
    StaysClosed(cfg, drain, Run(cfg, drain, before), rest);
    RunOn(cfg, drain, before + rest, Call(now));
  }

  // No reset, and no call as late as the open duration after `since`.
  predicate AllEarly(cfg: Settings, since: Instant, rest: seq<Event>) {
    forall i :: 0 <= i < |rest| ==>
      rest[i] != Reset && (rest[i].Call? ==> rest[i].now < since + cfg.openDuration)
  }

  lemma {:induction false} StaysOpen(cfg: Settings, drain: Drain, b: Breaker, rest: seq<Event>)
    requires b.state == Open && b.openSince < U64_MAX && cfg.openDuration > 0 && AllEarly(cfg, b.openSince, rest)
    ensures RunOver(cfg, drain, b, rest) == b
  {
    if rest != [] {
      StaysOpen(cfg, drain, b, rest[..|rest| - 1]);
      var last := rest[|rest| - 1];
      assert last != Reset;
    }
  }

  // The failure that makes the threshold full, and one in a half-open window, open
  // it; from then on every call before the open duration is over is rejected,
  // whatever is reported, until a reset.
  lemma BlocksUntilOver(
    cfg: Settings, drain: Drain, before: seq<Event>, since: Instant, rest: seq<Event>, now: Instant)
    requires var b := Run(cfg, drain, before);
             b.state == HalfOpen || (b.state == Closed && FailureRun(before) + 1 >= Threshold(cfg))
    requires cfg.openDuration > 0 && now < since + cfg.openDuration && AllEarly(cfg, since, rest)
    ensures Run(cfg, drain, before + [Failure(since)] + rest).state == Open
    ensures LastReply(cfg, drain, before + [Failure(since)] + rest + [Call(now)]) == Rejected
  {
    RunOn(cfg, drain, before, Failure(since));
    ClosedCountsFailures(cfg, drain, before);
    RunInParts(cfg, drain, before + [Failure(since)], rest);
    StaysOpen(cfg, drain, Run(cfg, drain, before + [Failure(since)]), rest);
    RunOn(cfg, drain, before + [Failure(since)] + rest, Call(now));
  }
}
