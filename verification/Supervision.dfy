/** Supervised restarts of a degraded server, and the backoff that keeps them from storming. */
module Supervision {
  import opened Common

  datatype Health = Healthy | Degraded | Failed | AuthRequired

  datatype Policy = Policy(enabled: bool, degradedThreshold: nat, minInterval: nat, maxInterval: nat) {
    // What configuration validation asks of an enabled policy.
    predicate Valid() {
      1 <= minInterval <= maxInterval <= U64_MAX
    }
  }

  // The restart clock and the count of supervised restarts since the last reset.
  datatype Backoff = Backoff(lastRestart: Option<nat>, attempts: nat)

  // `slotFree`: no recovery of this server is under way, so one can be started.
  datatype Event =
    | Tick(now: nat, health: Health, streak: nat, circuitOpen: bool, slotFree: bool)
    | OtherRestart(now: nat)  // a recovery that supervision did not ask for

  function RequiredWait(p: Policy, attempts: nat): nat {
    Min(SaturatingMul(p.minInterval, Pow2(Min(attempts, 16))), p.maxInterval)
  }

  predicate ShouldRestart(p: Policy, b: Backoff, e: Event)
    requires e.Tick?
  {
    var sustained := (e.health == Degraded || e.health == Failed) && e.streak >= p.degradedThreshold;
    && p.enabled
    && (sustained || e.circuitOpen)
    && match b.lastRestart
       case None => true
       case Some(last) => SaturatingSub(e.now, last) >= RequiredWait(p, b.attempts)
  }

  predicate Settled(p: Policy, b: Backoff, now: nat) {
    match b.lastRestart
    case None => true
    case Some(last) => SaturatingSub(now, last) >= p.maxInterval
  }

  predicate Resets(p: Policy, b: Backoff, e: Event) {
    e.Tick? && e.health == Healthy && !e.circuitOpen && Settled(p, b, e.now)
  }

  predicate Supervised(p: Policy, b: Backoff, e: Event) {
    e.Tick? && !Resets(p, b, e) && ShouldRestart(p, b, e) && e.slotFree
  }

  function Stamp(now: nat): Option<nat> {
    Some(if now == 0 then 1 else now)
  }

  function Step(p: Policy, b: Backoff, e: Event): Backoff {
    match e
    case OtherRestart(now) => b.(lastRestart := Stamp(now))
    case Tick(now, _, _, _, _) =>
      if Resets(p, b, e) then b.(attempts := 0)
      else if Supervised(p, b, e) then Backoff(Stamp(now), b.attempts + 1)
      else b
  }

  function Run(p: Policy, b: Backoff, trace: seq<Event>): Backoff
    decreases |trace|
  {
    if trace == [] then b else Run(p, Step(p, b, trace[0]), trace[1..])
  }

  function Restarts(p: Policy, b: Backoff, trace: seq<Event>): nat
    decreases |trace|
  {
    if trace == [] then 0
    else (if Supervised(p, b, trace[0]) then 1 else 0) + Restarts(p, Step(p, b, trace[0]), trace[1..])
  }

  // Events in time order, none before `from` or after `until`.
  predicate Between(trace: seq<Event>, from: nat, until: nat) {
    && (forall i :: 0 <= i < |trace| ==> 1 <= trace[i].now && from <= trace[i].now <= until)
    && (forall i, j :: 0 <= i < j < |trace| ==> trace[i].now <= trace[j].now)
  }

  lemma BetweenTail(trace: seq<Event>, from: nat, until: nat)
    requires Between(trace, from, until) && trace != []
    ensures Between(trace[1..], trace[0].now, until)
  {
    forall i | 0 <= i < |trace[1..]| ensures trace[0].now <= trace[1..][i].now <= until {
      assert trace[1..][i] == trace[i + 1];
    }
  }

  // -------------------------------------------------------------------------
  // One restart to the next
  // -------------------------------------------------------------------------

  predicate NoneSupervised(p: Policy, b: Backoff, trace: seq<Event>) {
    Restarts(p, b, trace) == 0
  }

  predicate HasReset(p: Policy, b: Backoff, trace: seq<Event>)
    decreases |trace|
  {
    trace != [] && (Resets(p, b, trace[0]) || HasReset(p, Step(p, b, trace[0]), trace[1..]))
  }

  // The supervised restart after the k-th since a reset comes at least the
  // k-th interval later, and a reset in between takes the longest interval;
  // without one the count is still k. Other recoveries only push it back.
  lemma {:induction false} NextRestartWaits(p: Policy, b: Backoff, last: nat, trace: seq<Event>, e: Event)
    requires b.lastRestart == Some(last)
    requires Between(trace + [e], last, e.now)
    requires NoneSupervised(p, b, trace) && Supervised(p, Run(p, b, trace), e)
    ensures e.now - last >= RequiredWait(p, b.attempts)
    ensures if HasReset(p, b, trace) then e.now - last >= p.maxInterval else Run(p, b, trace).attempts == b.attempts
    decreases |trace|
  {
    if trace != [] {
      var b' := Step(p, b, trace[0]);
      assert (trace + [e])[1..] == trace[1..] + [e];
      assert (trace + [e])[0] == trace[0];
      BetweenTail(trace + [e], last, e.now);
      var last' := b'.lastRestart.value;
      assert Between(trace[1..] + [e], last', e.now);
      NextRestartWaits(p, b', last', trace[1..], e);
    }
  }

  // A healthy tick resets the backoff exactly when the circuit is closed and
  // the longest interval has passed since the last restart; a shorter healthy
  // spell leaves the count where it was.
  lemma HealthyBlipKeepsCount(p: Policy, b: Backoff, last: nat, e: Event)
    requires b.lastRestart == Some(last) && e.Tick? && e.health == Healthy && !e.circuitOpen && e.now >= last
    ensures Step(p, b, e).attempts == (if e.now - last >= p.maxInterval then 0 else b.attempts)
    ensures Step(p, b, e).lastRestart == b.lastRestart
  {
  }

  // -------------------------------------------------------------------------
  // When a restart does come
  // -------------------------------------------------------------------------

  // A tick that asks for one: the circuit is open, or enough bad checks in a row,
  // and no recovery of the server is under way.
  predicate IsCalledFor(p: Policy, e: Event) {
    e.Tick? && e.slotFree
    && (e.circuitOpen || ((e.health == Degraded || e.health == Failed) && e.streak >= p.degradedThreshold))
  }

  // The shortest interval doubled once for each restart since the reset, sixteen
  // times at most, up to the longest.
  lemma RequiredWaitIsCappedPower(p: Policy, attempts: nat)
    requires p.Valid()
    ensures RequiredWait(p, attempts)
         == Min(p.minInterval * Pow2(if attempts <= 16 then attempts else 16), p.maxInterval)
  {
  }

  // With supervision on, a tick brings a restart exactly when it asks for one and
  // the wait is over, or the server was never restarted; then the clock is set and
  // the count grows.
  lemma RestartsExactly(p: Policy, b: Backoff, e: Event)
    requires p.Valid() && e.Tick? && e.now > 0 && (b.lastRestart.Some? ==> b.lastRestart.value <= e.now)
    ensures Supervised(p, b, e) <==>
              p.enabled && IsCalledFor(p, e)
              && (b.lastRestart.Some? ==> e.now >= b.lastRestart.value + RequiredWait(p, b.attempts))
    ensures Supervised(p, b, e) ==> Step(p, b, e) == Backoff(Some(e.now), b.attempts + 1)
  {
  }

  // A server that stays down is restarted: once the longest interval is over since
  // the last restart, no stretch of ticks that ask for one goes by without.
  lemma {:induction false} StaysDownIsRestarted(p: Policy, b: Backoff, last: nat, trace: seq<Event>)
    requires p.Valid() && p.enabled && trace != [] && (b.lastRestart.Some? ==> b.lastRestart == Some(last))
    requires Between(trace, last, trace[|trace| - 1].now)
    requires forall i :: 0 <= i < |trace| ==> IsCalledFor(p, trace[i])
    requires trace[|trace| - 1].now >= last + p.maxInterval
    ensures Restarts(p, b, trace) >= 1
    decreases |trace|
  {
    assert IsCalledFor(p, trace[0]);
    if |trace| == 1 {
      RestartsExactly(p, b, trace[0]);
    } else if !Supervised(p, b, trace[0]) {
      assert Step(p, b, trace[0]) == b;
      var rest := trace[1..];
      BetweenTail(trace, last, trace[|trace| - 1].now);
      forall i | 0 <= i < |rest| ensures IsCalledFor(p, rest[i]) && last <= rest[i].now {
        assert rest[i] == trace[i + 1];
      }
      StaysDownIsRestarted(p, b, last, rest);
    }
  }

  // -------------------------------------------------------------------------
  // Restarts in a stretch of time
  // -------------------------------------------------------------------------

  lemma MulMonotone(k: nat, a: nat, b: nat)
    requires a <= b
    ensures k * a <= k * b
  {
  }

  lemma WaitGrows(p: Policy, m: nat, n: nat)
    requires m <= n
    ensures RequiredWait(p, m) <= RequiredWait(p, n)
  {
    Pow2Monotone(Min(m, 16), Min(n, 16));
    MulMonotone(p.minInterval, Pow2(Min(m, 16)), Pow2(Min(n, 16)));
  }

  // The interval the doubling ends at: the configured maximum, or less when
  // sixteen doublings do not reach it.
  function Cap(p: Policy): nat {
    RequiredWait(p, 16)
  }

  // The least number of doublings that reaches the cap, searched from `j`.
  function LeastFrom(p: Policy, j: nat): (r: nat)
    requires j <= 16
    ensures j <= r <= 16 && RequiredWait(p, r) == Cap(p)
    ensures forall i :: j <= i < r ==> RequiredWait(p, i) != Cap(p)
    decreases 16 - j
  {
    if RequiredWait(p, j) == Cap(p) then j else LeastFrom(p, j + 1)
  }

  function LeastExponent(p: Policy): nat {
    LeastFrom(p, 0)
  }

  // How many restarts one stretch without a cap-long gap can hold.
  function Burst(p: Policy): nat {
    if LeastExponent(p) == 0 then 1 else LeastExponent(p)
  }

  lemma CapIsPositive(p: Policy)
    requires p.Valid()
    ensures 1 <= Cap(p) <= p.maxInterval
  {
    MulMonotone(p.minInterval, 1, Pow2(16));
  }

  lemma WaitReachesCap(p: Policy, attempts: nat)
    ensures attempts >= LeastExponent(p) ==> RequiredWait(p, attempts) == Cap(p)
  {
    if attempts >= LeastExponent(p) {
      WaitGrows(p, LeastExponent(p), attempts);
      if attempts <= 16 {
        WaitGrows(p, attempts, 16);
      }
    }
  }

  // How many gaps of length `cap` fit in `length`.
  function Fitting(length: nat, cap: nat): (n: nat)
    requires cap >= 1
    ensures n * cap <= length < (n + 1) * cap
    decreases length
  {
    if length < cap then 0 else Fitting(length - cap, cap) + 1
  }

  lemma {:induction false} FittingGrows(a: nat, b: nat, cap: nat)
    requires cap >= 1 && a <= b
    ensures Fitting(a, cap) <= Fitting(b, cap)
    decreases a
  {
    if a >= cap {
      FittingGrows(a - cap, b - cap, cap);
    }
  }

  function Slack(p: Policy, attempts: nat): nat {
    SaturatingSub(LeastExponent(p), attempts)
  }

  function Gaps(p: Policy, from: nat, until: nat): nat
    requires p.Valid() && from <= until
  {
    CapIsPositive(p);
    Fitting(until - from, Cap(p))
  }

  lemma MulOneMore(k: nat, n: nat)
    ensures k * (n + 1) == k * n + k
  {
  }

  lemma GapsShrink(p: Policy, from: nat, later: nat, until: nat)
    requires p.Valid() && from <= later <= until
    ensures Burst(p) * Gaps(p, later, until) <= Burst(p) * Gaps(p, from, until)
    ensures from + Cap(p) <= later ==> Burst(p) * Gaps(p, later, until) + Burst(p) <= Burst(p) * Gaps(p, from, until)
  {
    CapIsPositive(p);
    FittingGrows(until - later, until - from, Cap(p));
    MulMonotone(Burst(p), Gaps(p, later, until), Gaps(p, from, until));
    if from + Cap(p) <= later {
      FittingGrows(until - later, until - from - Cap(p), Cap(p));
      MulOneMore(Burst(p), Fitting(until - from - Cap(p), Cap(p)));
      MulMonotone(Burst(p), Gaps(p, later, until), Fitting(until - from - Cap(p), Cap(p)));
    }
  }

  // The restarts a stretch of time has room for.
  function Room(p: Policy, from: nat, until: nat): nat
    requires p.Valid() && from <= until
  {
    Burst(p) * Gaps(p, from, until)
  }

  lemma RestartUsesRoom(p: Policy, b: Backoff, last: nat, now: nat, until: nat)
    requires p.Valid() && last <= now <= until && now - last >= RequiredWait(p, b.attempts)
    ensures 1 + Slack(p, b.attempts + 1) + Room(p, now, until) <= Slack(p, b.attempts) + Room(p, last, until)
  {
    GapsShrink(p, last, now, until);
    WaitReachesCap(p, b.attempts);
  }

  lemma ResetUsesRoom(p: Policy, last: nat, now: nat, until: nat)
    requires p.Valid() && last <= now <= until && now - last >= p.maxInterval
    ensures Room(p, now, until) + Burst(p) <= Room(p, last, until)
  {
    CapIsPositive(p);
    GapsShrink(p, last, now, until);
  }

  lemma FirstRestartFits(p: Policy, b: Backoff, from: nat, now: nat, until: nat)
    requires p.Valid() && from <= now <= until
    ensures 1 + Slack(p, b.attempts + 1) + Room(p, now, until) <= Room(p, from, until) + Burst(p)
  {
    GapsShrink(p, from, now, until);
  }

  // From a state with a restart on the clock: what is left of the doublings,
  // and one burst for every cap-long gap that fits.
  lemma {:induction false} RestartsAfter(p: Policy, b: Backoff, last: nat, trace: seq<Event>, until: nat)
    requires p.Valid() && b.lastRestart == Some(last) && last <= until
    requires Between(trace, last, until)
    ensures Restarts(p, b, trace) <= Slack(p, b.attempts) + Room(p, last, until)
    decreases |trace|, 0
  {
    if trace != [] {
      var e, b' := trace[0], Step(p, b, trace[0]);
      BetweenTail(trace, last, until);
      if Resets(p, b, e) {
        RestartsInWindow(p, b', trace[1..], e.now, until);
        ResetUsesRoom(p, last, e.now, until);
      } else if Supervised(p, b, e) {
        RestartsAfter(p, b', e.now, trace[1..], until);
        RestartUsesRoom(p, b, last, e.now, until);
      } else if e.OtherRestart? {
        RestartsAfter(p, b', e.now, trace[1..], until);
        GapsShrink(p, last, e.now, until);
      } else {
        RestartsAfter(p, b, last, trace[1..], until);
      }
    }
  }

  // Supervision cannot storm: in any stretch of time, whatever state it starts
  // in and whatever the server does, the supervised restarts number at most one
  // burst, and one more for every cap-long gap that fits in the stretch.
  lemma {:induction false} RestartsInWindow(p: Policy, b: Backoff, trace: seq<Event>, from: nat, until: nat)
    requires p.Valid() && from <= until && Between(trace, from, until)
    ensures Restarts(p, b, trace) <= Burst(p) * Gaps(p, from, until) + Burst(p)
    decreases |trace|, 1
  {
    if trace != [] {
      var e, b' := trace[0], Step(p, b, trace[0]);
      BetweenTail(trace, from, until);
      if Supervised(p, b, e) {
        RestartsAfter(p, b', e.now, trace[1..], until);
        FirstRestartFits(p, b, from, e.now, until);
      } else {
        RestartsInWindow(p, b', trace[1..], e.now, until);
        GapsShrink(p, from, e.now, until);
      }
    }
  }

  // -------------------------------------------------------------------------
  // The running supervisor of one server
  // -------------------------------------------------------------------------

  class Supervisor {
    const policy: Policy
    var lastRestartEpoch: nat  // 0 means never
    var attempts: nat

    ghost function Value(): Backoff
      reads this
    {
      Backoff(if lastRestartEpoch == 0 then None else Some(lastRestartEpoch), attempts)
    }

    constructor (policy: Policy)
      ensures this.policy == policy && Value() == Backoff(None, 0)
    {
      this.policy := policy;
      lastRestartEpoch, attempts := 0, 0;
    }

    method NoteRestart(now: nat)
      modifies this`lastRestartEpoch
      ensures Value() == Step(policy, old(Value()), OtherRestart(now))
    {
      lastRestartEpoch := if now == 0 then 1 else now;
    }

    // The end of one health tick: reset, restart, or neither.
    method Supervise(now: nat, health: Health, streak: nat, circuitOpen: bool, slotFree: bool) returns (restarted: bool)
      modifies this
      ensures var e := Tick(now, health, streak, circuitOpen, slotFree);
              Value() == Step(policy, old(Value()), e) && restarted == Supervised(policy, old(Value()), e)
    {
      restarted := false;
      var settled := lastRestartEpoch == 0 || SaturatingSub(now, lastRestartEpoch) >= policy.maxInterval;
      if health == Healthy && !circuitOpen && settled {
        attempts := 0;
        return;
      }
      var sustained := (health == Degraded || health == Failed) && streak >= policy.degradedThreshold;
      var waited := lastRestartEpoch == 0 || SaturatingSub(now, lastRestartEpoch) >= RequiredWait(policy, attempts);
      if policy.enabled && (sustained || circuitOpen) && waited && slotFree {
        NoteRestart(now);
        attempts := attempts + 1;
        restarted := true;
      }
    }
  }
}
