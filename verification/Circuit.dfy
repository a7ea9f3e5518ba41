/**
 The circuit breaker with each method taken as one step: the running object, its step function,
 and what every sequence of calls keeps.
 */
module Circuit {
  import opened Common

  datatype CircuitState = Closed | Open | HalfOpen

  const U32_MODULUS: nat := 0x1_0000_0000

  // Durations and times are in nanoseconds.
  datatype Settings = Settings(failureThreshold: nat, openDuration: nat, probeCount: nat)

  // A reading of the process clock; the largest word is reserved for "not set".
  type Instant = t: nat | t < U64_MAX

  datatype Breaker = Breaker(state: CircuitState, failureCount: nat, openSince: nat, permits: nat)

  datatype Event = Call(now: Instant) | Success | Failure(now: Instant) | Reset

  // `Spinning`: the call is in the drain loop and does not return.
  datatype Reply = Allowed | Rejected | Spinning | Done

  // What the drain loop does with a permit it gets hold of.
  datatype Drain = AsWritten | Forgetting

  const Fresh := Breaker(Closed, 0, U64_MAX, 0)

  // -------------------------------------------------------------------------
  // One call
  // -------------------------------------------------------------------------

  function TryProbe(b: Breaker): (Breaker, Reply) {
    if b.permits > 0 then (b.(permits := b.permits - 1), Allowed) else (b, Rejected)
  }

  function Step(cfg: Settings, drain: Drain, b: Breaker, e: Event): (Breaker, Reply) {
    match e
    case Call(now) =>
      (match b.state
       case Closed => (b, Allowed)
       case Open =>
         if SaturatingSub(now, b.openSince) < cfg.openDuration then (b, Rejected)
         else if drain.AsWritten? && b.permits > 0 then (b.(state := HalfOpen), Spinning)
         else TryProbe(b.(state := HalfOpen, permits := cfg.probeCount))
       case HalfOpen => TryProbe(b))
    case Success =>
      (match b.state
       case Closed => (b.(failureCount := 0), Done)
       case HalfOpen => (b.(state := Closed, failureCount := 0, openSince := U64_MAX), Done)
       case Open => (b, Done))
    case Failure(now) =>
      (match b.state
       case Closed =>
         var counted := b.(failureCount := b.failureCount + 1);
         var tripped := counted.(state := Open, openSince := now);
         (if b.failureCount + 1 >= cfg.failureThreshold then tripped else counted, Done)
       case HalfOpen => (b.(state := Open, openSince := now), Done)
       case Open => (b, Done))
    case Reset => (b.(state := Closed, failureCount := 0, openSince := U64_MAX), Done)
  }

  function Run(cfg: Settings, drain: Drain, trace: seq<Event>): Breaker {
    if trace == [] then Fresh else Step(cfg, drain, Run(cfg, drain, trace[..|trace| - 1]), trace[|trace| - 1]).0
  }

  function LastReply(cfg: Settings, drain: Drain, trace: seq<Event>): Reply
    requires trace != []
  {
    Step(cfg, drain, Run(cfg, drain, trace[..|trace| - 1]), trace[|trace| - 1]).1
  }

  // -------------------------------------------------------------------------
  // What the history says
  // -------------------------------------------------------------------------

  // Failures since the last success or reset; calls in between do not matter.
  function FailureRun(trace: seq<Event>): nat {
    if trace == [] then 0
    else match trace[|trace| - 1]
         case Success => 0
         case Reset => 0
         case Failure(_) => FailureRun(trace[..|trace| - 1]) + 1
         case Call(_) => FailureRun(trace[..|trace| - 1])
  }

  predicate Enters(cfg: Settings, drain: Drain, trace: seq<Event>, target: CircuitState)
    requires trace != []
  {
    && Run(cfg, drain, trace).state == target
    && Run(cfg, drain, trace[..|trace| - 1]).state != target
  }

  // When the breaker last opened.
  function OpenedAt(cfg: Settings, drain: Drain, trace: seq<Event>): Option<Instant> {
    if trace == [] then None
    else match trace[|trace| - 1]
         case Failure(now) =>
           if Enters(cfg, drain, trace, Open) then Some(now) else OpenedAt(cfg, drain, trace[..|trace| - 1])
         case _ => OpenedAt(cfg, drain, trace[..|trace| - 1])
  }

  // Calls let through since the breaker last became half-open.
  function AdmittedInWindow(cfg: Settings, drain: Drain, trace: seq<Event>): nat {
    if trace == [] then 0
    else
      var admitted := if LastReply(cfg, drain, trace).Allowed? then 1 else 0;
      if Enters(cfg, drain, trace, HalfOpen) then admitted
      else AdmittedInWindow(cfg, drain, trace[..|trace| - 1]) + admitted
  }

  function Threshold(cfg: Settings): nat {
    if cfg.failureThreshold == 0 then 1 else cfg.failureThreshold
  }

  // In the closed state the counter is the run of failures and stays short of
  // the threshold, and no opening time is set, after every history.
  lemma {:induction false} ClosedCountsFailures(cfg: Settings, drain: Drain, trace: seq<Event>)
    ensures var b := Run(cfg, drain, trace);
            b.state == Closed ==>
              b.failureCount == FailureRun(trace) && b.failureCount < Threshold(cfg) && b.openSince == U64_MAX
  {
    if trace != [] {
      ClosedCountsFailures(cfg, drain, trace[..|trace| - 1]);
    }
  }

  // A closed breaker opens on the failure that completes the threshold and on no earlier one.
  lemma OpensExactlyAtThreshold(cfg: Settings, drain: Drain, trace: seq<Event>, now: Instant)
    requires Run(cfg, drain, trace).state == Closed
    ensures var b := Run(cfg, drain, trace + [Failure(now)]);
            && (b.state == Open <==> FailureRun(trace) + 1 == Threshold(cfg))
            && (b.state == Open ==> b.openSince == now)
            && (b.state != Open ==> b.state == Closed)
  {
    ClosedCountsFailures(cfg, drain, trace);
    assert (trace + [Failure(now)])[..|trace|] == trace;
  }

  lemma {:induction false} OpenRemembersWhen(cfg: Settings, drain: Drain, trace: seq<Event>)
    ensures var b := Run(cfg, drain, trace);
            b.state == Open ==> OpenedAt(cfg, drain, trace) == Some(b.openSince)
  {
    if trace != [] {
      OpenRemembersWhen(cfg, drain, trace[..|trace| - 1]);
    }
  }

  // An open breaker becomes half-open only by a call, and only once the open
  // duration has passed since it last opened.
  lemma OpenLastsItsDuration(cfg: Settings, drain: Drain, trace: seq<Event>, e: Event)
    requires Run(cfg, drain, trace).state == Open
    requires Run(cfg, drain, trace + [e]).state == HalfOpen
    ensures e.Call? && OpenedAt(cfg, drain, trace).Some?
    ensures cfg.openDuration == 0 || e.now >= OpenedAt(cfg, drain, trace).value + cfg.openDuration
  {
    OpenRemembersWhen(cfg, drain, trace);
    assert (trace + [e])[..|trace|] == trace;
  }

  // With a drain that forgets, the probes let through in the current window and
  // the permits left add up to the probe count, whatever earlier windows left
  // behind; so no window admits more.
  lemma {:induction false} WindowAdmitsProbeCount(cfg: Settings, trace: seq<Event>)
    ensures Run(cfg, Forgetting, trace).state == HalfOpen ==>
              AdmittedInWindow(cfg, Forgetting, trace) + Run(cfg, Forgetting, trace).permits == cfg.probeCount
  {
    if trace != [] {
      WindowAdmitsProbeCount(cfg, trace[..|trace| - 1]);
    }
  }

  // -------------------------------------------------------------------------
  // The drain loop as written
  // -------------------------------------------------------------------------

  // One call differs between the two drains exactly when it wins the
  // transition with permits left over; then the call as written spins.
  lemma DrainsDifferOnlyOnLeftovers(cfg: Settings, b: Breaker, e: Event)
    ensures var leftovers := e.Call? && b.state == Open && b.permits > 0
                             && SaturatingSub(e.now, b.openSince) >= cfg.openDuration;
            && (Step(cfg, AsWritten, b, e) == Step(cfg, Forgetting, b, e) <==> !leftovers)
            && (Step(cfg, AsWritten, b, e).1 == Spinning <==> leftovers)
            && Step(cfg, Forgetting, b, e).1 != Spinning
  {
  }

  // The two agree on a whole history exactly up to the first such call.
  predicate NeverSpins(cfg: Settings, trace: seq<Event>) {
    forall k :: 0 < k <= |trace| ==> LastReply(cfg, AsWritten, trace[..k]) != Spinning
  }

  lemma {:induction false} AgreeWhileNoCallSpins(cfg: Settings, trace: seq<Event>)
    requires NeverSpins(cfg, trace)
    ensures Run(cfg, AsWritten, trace) == Run(cfg, Forgetting, trace)
    ensures trace != [] ==> LastReply(cfg, AsWritten, trace) == LastReply(cfg, Forgetting, trace)
  {
    if trace != [] {
      var before := trace[..|trace| - 1];
      forall k | 0 < k <= |before| ensures LastReply(cfg, AsWritten, before[..k]) != Spinning {
        assert before[..k] == trace[..k];
      }
      AgreeWhileNoCallSpins(cfg, before);
      assert trace[..|trace|] == trace;
      DrainsDifferOnlyOnLeftovers(cfg, Run(cfg, AsWritten, before), trace[|trace| - 1]);
    }
  }

  function Failures(n: nat): seq<Event> {
    if n == 0 then [] else Failures(n - 1) + [Failure(0)]
  }

  lemma RunOn(cfg: Settings, drain: Drain, trace: seq<Event>, e: Event)
    ensures Run(cfg, drain, trace + [e]) == Step(cfg, drain, Run(cfg, drain, trace), e).0
    ensures LastReply(cfg, drain, trace + [e]) == Step(cfg, drain, Run(cfg, drain, trace), e).1
  {
    assert (trace + [e])[..|trace|] == trace;
  }

  lemma {:induction false} FailuresOpen(cfg: Settings, drain: Drain, n: nat)
    requires n <= Threshold(cfg)
    ensures Run(cfg, drain, Failures(n)) ==
            if n < Threshold(cfg) then Breaker(Closed, n, U64_MAX, 0) else Breaker(Open, n, 0, 0)
  {
    if n > 0 {
      FailuresOpen(cfg, drain, n - 1);
      RunOn(cfg, drain, Failures(n - 1), Failure(0));
    }
  }

  // The leftovers come about in ordinary use: with any threshold, a window whose
  // first probe fails before the others are spent makes the next transition spin.
  lemma UnspentProbesMakeNextWindowSpin(cfg: Settings, t: Instant)
    requires cfg.probeCount >= 2 && t >= cfg.openDuration && t + cfg.openDuration < U64_MAX
    ensures var window := Failures(Threshold(cfg)) + [Call(t)] + [Failure(t)];
            && LastReply(cfg, AsWritten, Failures(Threshold(cfg)) + [Call(t)]) == Allowed
            && Run(cfg, AsWritten, window) == Breaker(Open, Threshold(cfg), t, cfg.probeCount - 1)
            && LastReply(cfg, AsWritten, window + [Call(t + cfg.openDuration)]) == Spinning
            && LastReply(cfg, Forgetting, window + [Call(t + cfg.openDuration)]) == Allowed
  {
    var opening := Failures(Threshold(cfg));
    forall drain: Drain
      ensures LastReply(cfg, drain, opening + [Call(t)]) == Allowed
      ensures Run(cfg, drain, opening + [Call(t)] + [Failure(t)])
           == Breaker(Open, Threshold(cfg), t, cfg.probeCount - 1)
    {
      FailuresOpen(cfg, drain, Threshold(cfg));
      RunOn(cfg, drain, opening, Call(t));
      RunOn(cfg, drain, opening + [Call(t)], Failure(t));
    }
    var window := opening + [Call(t)] + [Failure(t)];
    RunOn(cfg, AsWritten, window, Call(t + cfg.openDuration));
    RunOn(cfg, Forgetting, window, Call(t + cfg.openDuration));
  }

  // -------------------------------------------------------------------------
  // An open breaker with no opening time
  // -------------------------------------------------------------------------

  function RunFrom(cfg: Settings, drain: Drain, b: Breaker, trace: seq<Event>): Breaker
    decreases |trace|
  {
    if trace == [] then b else RunFrom(cfg, drain, Step(cfg, drain, b, trace[0]).0, trace[1..])
  }

  // Once open with no opening time, the breaker rejects every call for ever,
  // until it is reset: the elapsed time always comes out as zero.
  lemma {:induction false} OpenWithoutTimeIsStuck(cfg: Settings, drain: Drain, b: Breaker,
      trace: seq<Event>, now: Instant)
    requires b.state == Open && b.openSince == U64_MAX && cfg.openDuration > 0
    requires Reset !in trace
    ensures RunFrom(cfg, drain, b, trace) == b
    ensures Step(cfg, drain, RunFrom(cfg, drain, b, trace), Call(now)).1 == Rejected
  {
    if trace != [] {
      assert Step(cfg, drain, b, trace[0]).0 == b;
      OpenWithoutTimeIsStuck(cfg, drain, b, trace[1..], now);
    }
  }

  // With every method one step, no history leads there.
  lemma {:induction false} OpenAlwaysHasTime(cfg: Settings, drain: Drain, trace: seq<Event>)
    ensures Run(cfg, drain, trace).state == Open ==> Run(cfg, drain, trace).openSince < U64_MAX
  {
    if trace != [] {
      OpenAlwaysHasTime(cfg, drain, trace[..|trace| - 1]);
    }
  }

  // -------------------------------------------------------------------------
  // The running breaker
  // -------------------------------------------------------------------------

  class CircuitBreaker {
    const config: Settings
    var state: CircuitState
    var failureCount: nat
    var openSinceNanos: nat
    var probePermits: nat

    ghost function Value(): Breaker
      reads this
    {
      Breaker(state, failureCount, openSinceNanos, probePermits)
    }

    // The closed counter is below the threshold, so counting one more never wraps.
    ghost predicate Valid()
      reads this
    {
      && config.failureThreshold < U32_MODULUS
      && (state == Closed ==> failureCount < Threshold(config) && openSinceNanos == U64_MAX)
    }

    constructor (config: Settings)
      requires config.failureThreshold < U32_MODULUS
      ensures Valid() && this.config == config && Value() == Fresh
    {
      this.config := config;
      state, failureCount, openSinceNanos, probePermits := Closed, 0, U64_MAX, 0;
    }

    method TryAcquireProbe() returns (reply: Reply)
      modifies this`probePermits
      ensures (Value(), reply) == TryProbe(old(Value()))
    {
      if probePermits > 0 {
        probePermits := probePermits - 1;
        reply := Allowed;
      } else {
        reply := Rejected;
      }
    }

    // Run the drain loop as written for at most `turns` turns. A turn that gets
    // a permit gives it back when the guard goes out of scope, so the permits
    // never change and the loop leaves only when there were none.
    method DrainAsWritten(turns: nat) returns (left: bool)
      modifies this`probePermits
      ensures probePermits == old(probePermits)
      ensures left <==> turns > 0 && probePermits == 0
    {
      left := false;
      var turn := 0;
      while turn < turns && !left
        invariant turn <= turns && probePermits == old(probePermits)
        invariant left ==> probePermits == 0
        invariant turn > 0 && !left ==> probePermits > 0
        invariant left ==> turn > 0
      {
        if probePermits > 0 {
          probePermits := probePermits - 1;
          probePermits := probePermits + 1;
        } else {
          left := true;
        }
        turn := turn + 1;
      }
    }

    // The loop the comment beside it describes: every leftover permit is used up.
    method DrainForgetting()
      modifies this`probePermits
      ensures probePermits == 0
    {
      while probePermits > 0 {
        probePermits := probePermits - 1;
      }
    }

    // However many turns the caller is given, a call that finds leftovers does not return.
    method CallAllowed(now: Instant, drain: Drain, turns: nat) returns (reply: Reply)
      requires Valid() && turns > 0
      modifies this
      ensures Valid() && (Value(), reply) == Step(config, drain, old(Value()), Call(now))
    {
      if state == Closed {
        return Allowed;
      }
      if state == Open {
        var elapsed := SaturatingSub(now, openSinceNanos);
        if elapsed < config.openDuration {
          return Rejected;
        }
        state := HalfOpen;
        if drain == AsWritten {
          var left := DrainAsWritten(turns);
          if !left {
            return Spinning;
          }
        } else {
          DrainForgetting();
        }
        probePermits := probePermits + config.probeCount;
      }
      reply := TryAcquireProbe();
    }

    method OnSuccess()
      requires Valid()
      modifies this
      ensures Valid() && forall drain :: Value() == Step(config, drain, old(Value()), Success).0
    {
      if state == Closed {
        failureCount := 0;
      } else if state == HalfOpen {
        state := Closed;
        failureCount := 0;
        openSinceNanos := U64_MAX;
      }
    }

    method OnFailure(now: Instant)
      requires Valid()
      modifies this
      ensures Valid() && forall drain :: Value() == Step(config, drain, old(Value()), Failure(now)).0
    {
      if state == Closed {
        var prev := failureCount;
        failureCount := (prev + 1) % U32_MODULUS;
        if prev + 1 >= config.failureThreshold {
          state := Open;
          openSinceNanos := now;
        }
      } else if state == HalfOpen {
        state := Open;
        openSinceNanos := now;
      }
    }

    method Reset()
      requires Valid()
      modifies this
      ensures Valid() && forall drain :: Value() == Step(config, drain, old(Value()), Event.Reset).0
    {
      state := Closed;
      failureCount := 0;
      openSinceNanos := U64_MAX;
    }
  }
}
