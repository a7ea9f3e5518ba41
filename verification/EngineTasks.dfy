/**
 A restart and a reconnect with nothing else going on: that they do bring the server up, retry as
 often as they may, and look before they dial.
 */
module EngineTasks {
  import opened Common
  import opened Reload
  import opened EngineCore
  import opened EngineProtocol

  // The events one after the other, if each can happen.
  function Follow(s: State, events: seq<Event>): Option<State>
    decreases |events|
  {
    if events == [] then Some(s)
    else if Enabled(s, events[0]) then Follow(Step(s, events[0]), events[1..])
    else None
  }

  lemma {:induction false} FollowInParts(s: State, a: seq<Event>, b: seq<Event>)
    ensures Follow(s, a + b) == match Follow(s, a) case None => None case Some(mid) => Follow(mid, b)
    decreases |a|
  {
    if a == [] {
      assert a + b == b;
    } else {
      assert (a + b)[0] == a[0] && (a + b)[1..] == a[1..] + b;
      if Enabled(s, a[0]) {
        FollowInParts(Step(s, a[0]), a[1..], b);
      }
    }
  }

  lemma FollowOne(s: State, e: Event)
    requires Enabled(s, e)
    ensures Follow(s, [e]) == Some(Step(s, e))
  {
    assert [e][0] == e && [e][1..] == [];
    assert Follow(Step(s, e), []) == Some(Step(s, e));
  }

  lemma FollowTwo(s: State, mid: State, e: Event, f: Event)
    requires Enabled(s, e) && mid == Step(s, e) && Enabled(mid, f)
    ensures Follow(s, [e, f]) == Some(Step(mid, f))
  {
    FollowOne(s, e);
    FollowOne(mid, f);
    FollowInParts(s, [e], [f]);
    assert [e] + [f] == [e, f];
  }

  // The connection is installed, and the one it replaces is retired.
  function InPlace(s: State, name: Name, u: Upstream): State {
    s.(world := s.world.(installed := s.world.installed[name := u]),
       retired := if name in s.world.installed then s.retired + [s.world.installed[name].id] else s.retired)
  }

  function Replaced(s: State, name: Name, u: Upstream): State {
    InPlace(s.(nextId := s.nextId + 1), name, u)
  }

  lemma Then(s: State, first: seq<Event>, mid: State, second: seq<Event>, last: Option<State>)
    requires Follow(s, first) == Some(mid) && Follow(mid, second) == last
    ensures Follow(s, first + second) == last
  {
    FollowInParts(s, first, second);
  }

  // The task is at this point, with its start slot.
  function Holding(s: State, a: ActorId, t: Actor): State {
    s.(actors := s.actors[a := t], claims := s.claims[t.name := a])
  }

  predicate IsIdle(s: State, a: ActorId, name: Name) {
    a !in s.actors && name !in s.claims
  }

  lemma MovesOn(s: State, a: ActorId, t: Actor, u: Actor)
    requires t.name == u.name
    ensures Move(Holding(s, a, t), a, u) == Holding(s, a, u)
  {
    assert s.actors[a := t][a := u] == s.actors[a := u];
  }

  lemma Leaves(s: State, a: ActorId, t: Actor)
    requires IsIdle(s, a, t.name)
    ensures End(Holding(s, a, t), a, t.name) == s
  {
    assert s.actors[a := t] - {a} == s.actors && s.claims[t.name := a] - {t.name} == s.claims;
  }

  // A task that has dialled with today's configuration under today's gate.
  lemma DialledIsInstalled(s: State, a: ActorId, name: Name, u: Upstream)
    requires s.lock.Free? && IsIdle(s, a, name) && u.id == s.nextId && CommitAccepts(s.world, name, u.config, u)
    ensures Follow(Holding(s, a, Connected(name, u)).(nextId := s.nextId + 1), [AcquireForCommit(a), FinishCommit(a)])
         == Some(Replaced(s, name, u))
  {
    var next := s.(nextId := s.nextId + 1);
    AcquiresAlone(next, a, name, u);
    FinishesAlone(next.(lock := CommitHeld(a)), a, name, u);
    FollowTwo(Holding(next, a, Connected(name, u)), Holding(next.(lock := CommitHeld(a)), a, Committing(name, u)),
              AcquireForCommit(a), FinishCommit(a));
  }

  lemma AcquiresAlone(s: State, a: ActorId, name: Name, u: Upstream)
    requires s.lock.Free?
    ensures Enabled(Holding(s, a, Connected(name, u)), AcquireForCommit(a))
    ensures Step(Holding(s, a, Connected(name, u)), AcquireForCommit(a))
         == Holding(s.(lock := CommitHeld(a)), a, Committing(name, u))
  {
    MovesOn(s, a, Connected(name, u), Committing(name, u));
  }

  lemma FinishesAlone(s: State, a: ActorId, name: Name, u: Upstream)
    requires s.lock == CommitHeld(a) && IsIdle(s, a, name) && CommitAccepts(s.world, name, u.config, u)
    ensures Enabled(Holding(s, a, Committing(name, u)), FinishCommit(a))
    ensures Step(Holding(s, a, Committing(name, u)), FinishCommit(a)) == InPlace(s, name, u).(lock := Free)
  {
    Leaves(s, a, Committing(name, u));
  }

  // -------------------------------------------------------------------------
  // Restarts
  // -------------------------------------------------------------------------

  // A restart of a server that is on, whose dial succeeds, installs a connection with
  // today's configuration and gate in place of the one there was, and leaves nothing
  // else behind.
  lemma RestartAlone(s: State, a: ActorId, name: Name)
    requires s.lock.Free? && IsIdle(s, a, name)
    requires name in s.world.config.servers && s.world.config.servers[name].material.enabled
    ensures Follow(s, [BeginRestart(a, name), RestartReadGate(a)] + [RestartClaim(a), DialSucceeds(a)]
                      + [AcquireForCommit(a), FinishCommit(a)])
         == Some(Replaced(s, name, Upstream(s.nextId, s.world.config.servers[name], s.world.gate)))
  {
    var cfg := s.world.config.servers[name];
    var first, second, third := [BeginRestart(a, name), RestartReadGate(a)], [RestartClaim(a), DialSucceeds(a)],
      [AcquireForCommit(a), FinishCommit(a)];
    ReadyToRestart(s, a, name);
    ReadyIsDialled(s, a, name, cfg);
    DialledIsInstalled(s, a, name, Upstream(s.nextId, cfg, s.world.gate));
    FollowInParts(s, first, second);
    FollowInParts(s, first + second, third);
  }

  lemma ReadyToRestart(s: State, a: ActorId, name: Name)
    requires a !in s.actors && name in s.world.config.servers && s.world.config.servers[name].material.enabled
    ensures Follow(s, [BeginRestart(a, name), RestartReadGate(a)])
         == Some(s.(actors := s.actors[a := RestartReady(name, s.world.config.servers[name], s.world.gate)]))
  {
    var cfg := s.world.config.servers[name];
    FollowTwo(s, Move(s, a, RestartLoaded(name, cfg)), BeginRestart(a, name), RestartReadGate(a));
    assert s.actors[a := RestartLoaded(name, cfg)][a := RestartReady(name, cfg, s.world.gate)]
        == s.actors[a := RestartReady(name, cfg, s.world.gate)];
  }

  lemma ReadyIsDialled(s: State, a: ActorId, name: Name, cfg: ServerConfig)
    requires IsIdle(s, a, name)
    ensures var u := Upstream(s.nextId, cfg, s.world.gate);
            Follow(s.(actors := s.actors[a := RestartReady(name, cfg, s.world.gate)]),
                   [RestartClaim(a), DialSucceeds(a)])
            == Some(Holding(s, a, Connected(name, u)).(nextId := s.nextId + 1))
  {
    var ready := s.(actors := s.actors[a := RestartReady(name, cfg, s.world.gate)]);
    var dialling := Dialing(Restart, name, cfg, s.world.gate, 1, 1);
    assert ready.actors[a := dialling] == s.actors[a := dialling];
    FollowOne(ready, RestartClaim(a));
    DialSucceedsOnce(s, a, Restart, Plan(name, cfg, s.world.gate, 1), 1);
    Then(ready, [RestartClaim(a)], Holding(s, a, dialling), [DialSucceeds(a)],
         Some(Holding(s, a, Connected(name, Upstream(s.nextId, cfg, s.world.gate))).(nextId := s.nextId + 1)));
    assert [RestartClaim(a)] + [DialSucceeds(a)] == [RestartClaim(a), DialSucceeds(a)];
  }

  // -------------------------------------------------------------------------
  // Reconnects
  // -------------------------------------------------------------------------

  // What a reconnect goes by: its server, what it read of it and of the gate, and how
  // often it may dial.
  datatype Plan = Plan(name: Name, cfg: ServerConfig, gate: Gate, maxAttempts: nat)

  // At the top of its retry loop, for the n-th time.
  function AtTop(s: State, a: ActorId, p: Plan, n: nat): State {
    Holding(s, a, RetryTop(p.name, p.cfg, p.gate, n, p.maxAttempts))
  }

  function AtDial(s: State, a: ActorId, p: Plan, n: nat): State {
    Holding(s, a, Dialing(Reconnect, p.name, p.cfg, p.gate, n, p.maxAttempts))
  }

  // Looking again, a reconnect dials exactly when its server is still configured,
  // unchanged in its material fields, and its gate is today's or does not matter;
  // else it gives up its slot.
  lemma LooksBeforeDialling(s: State, a: ActorId, p: Plan, n: nat)
    requires IsIdle(s, a, p.name)
    ensures Follow(AtTop(s, a, p, n), [RetryReadConfig(a), RetryReadGate(a)]) == Some(
              if p.name in s.world.config.servers && s.world.config.servers[p.name].material == p.cfg.material
                 && (p.cfg.material.protocolMode == Legacy || p.gate == s.world.gate)
              then AtDial(s, a, p, n) else s)
  {
    var same := SameConfig(s.world, p.name, p.cfg);
    var top, compared := RetryTop(p.name, p.cfg, p.gate, n, p.maxAttempts),
      RetryCompared(p.name, p.cfg, p.gate, n, p.maxAttempts, same);
    MovesOn(s, a, top, compared);
    FollowTwo(AtTop(s, a, p, n), Holding(s, a, compared), RetryReadConfig(a), RetryReadGate(a));
    LooksAtTheGate(s, a, p, n, same);
  }

  lemma LooksAtTheGate(s: State, a: ActorId, p: Plan, n: nat, same: bool)
    requires IsIdle(s, a, p.name)
    ensures var compared := RetryCompared(p.name, p.cfg, p.gate, n, p.maxAttempts, same);
            Step(Holding(s, a, compared), RetryReadGate(a)) ==
            if same && (IsLegacy(p.cfg) || p.gate == s.world.gate) then AtDial(s, a, p, n) else s
  {
    var compared := RetryCompared(p.name, p.cfg, p.gate, n, p.maxAttempts, same);
    MovesOn(s, a, compared, Dialing(Reconnect, p.name, p.cfg, p.gate, n, p.maxAttempts));
    Leaves(s, a, compared);
  }

  function Round(a: ActorId): seq<Event> {
    [RetryReadConfig(a), RetryReadGate(a)] + [DialFails(a, true)]
  }

  predicate IsToday(s: State, p: Plan) {
    p.name in s.world.config.servers && s.world.config.servers[p.name] == p.cfg && p.gate == s.world.gate
  }

  lemma DialFailsOnce(s: State, a: ActorId, p: Plan, n: nat)
    requires IsIdle(s, a, p.name)
    ensures Follow(AtDial(s, a, p, n), [DialFails(a, true)])
         == Some(if n < p.maxAttempts then AtTop(s, a, p, n + 1) else s)
  {
    var top, dialling := RetryTop(p.name, p.cfg, p.gate, n + 1, p.maxAttempts),
      Dialing(Reconnect, p.name, p.cfg, p.gate, n, p.maxAttempts);
    FollowOne(AtDial(s, a, p, n), DialFails(a, true));
    MovesOn(s, a, dialling, top);
    Leaves(s, a, dialling);
  }

  lemma OneRound(s: State, a: ActorId, p: Plan, n: nat)
    requires IsIdle(s, a, p.name) && IsToday(s, p)
    ensures Follow(AtTop(s, a, p, n), Round(a)) == Some(if n < p.maxAttempts then AtTop(s, a, p, n + 1) else s)
  {
    LooksBeforeDialling(s, a, p, n);
    FollowInParts(AtTop(s, a, p, n), [RetryReadConfig(a), RetryReadGate(a)], [DialFails(a, true)]);
    DialFailsOnce(s, a, p, n);
  }

  // The same events n times, and then these.
  function AfterRounds(round: seq<Event>, n: nat, then_: seq<Event>): seq<Event> {
    if n == 0 then then_ else round + AfterRounds(round, n - 1, then_)
  }

  // From each of these states the round leads to the next.
  ghost predicate RoundLeadsOn(tops: seq<State>, round: seq<Event>) {
    forall i, j :: 0 <= i < j < |tops| && j == i + 1 ==> Follow(tops[i], round) == Some(tops[j])
  }

  lemma {:induction false} OverAndOver(
    tops: seq<State>, round: seq<Event>, then_: seq<Event>, last: Option<State>)
    requires tops != [] && RoundLeadsOn(tops, round) && Follow(tops[|tops| - 1], then_) == last
    ensures Follow(tops[0], AfterRounds(round, |tops| - 1, then_)) == last
  {
    if |tops| > 1 {
      OverAndOver(tops[1..], round, then_, last);
      Then(tops[0], round, tops[1], AfterRounds(round, |tops| - 2, then_), last);
    }
  }

  // The task at the top of its loop, for the first to the n-th time.
  function Tops(s: State, a: ActorId, p: Plan, n: nat): (tops: seq<State>)
    ensures |tops| == n && forall i :: 0 <= i < n ==> tops[i] == AtTop(s, a, p, i + 1)
  {
    if n == 0 then [] else Tops(s, a, p, n - 1) + [AtTop(s, a, p, n)]
  }

  lemma RoundFrom(s: State, a: ActorId, p: Plan, k: nat, top: State, next: State)
    requires IsIdle(s, a, p.name) && IsToday(s, p) && k < p.maxAttempts
    requires top == AtTop(s, a, p, k) && next == AtTop(s, a, p, k + 1)
    ensures Follow(top, Round(a)) == Some(next)
  {
    OneRound(s, a, p, k);
  }

  lemma RoundsLeadOn(s: State, a: ActorId, p: Plan, n: nat)
    requires IsIdle(s, a, p.name) && IsToday(s, p) && n <= p.maxAttempts
    ensures RoundLeadsOn(Tops(s, a, p, n), Round(a))
  {
    var tops := Tops(s, a, p, n);
    forall i, j | 0 <= i < j < n && j == i + 1 ensures Follow(tops[i], Round(a)) == Some(tops[j]) {
      RoundFrom(s, a, p, j, tops[i], tops[j]);
    }
  }

  // As long as the task may dial again, it comes back to the top of its loop after a
  // dial that fails in a way worth retrying.
  lemma RetriesAsOftenAsItMay(
    s: State, a: ActorId, p: Plan, n: nat, then_: seq<Event>, last: Option<State>)
    requires IsIdle(s, a, p.name) && IsToday(s, p) && 1 + n <= p.maxAttempts
    requires Follow(AtTop(s, a, p, 1 + n), then_) == last
    ensures Follow(AtTop(s, a, p, 1), AfterRounds(Round(a), n, then_)) == last
  {
    RoundsLeadOn(s, a, p, n + 1);
    OverAndOver(Tops(s, a, p, n + 1), Round(a), then_, last);
  }

  // When the last dial it may make fails as well, it gives up and leaves everything
  // as it was.
  lemma GivesUpAtTheLast(s: State, a: ActorId, p: Plan)
    requires IsIdle(s, a, p.name) && IsToday(s, p) && p.maxAttempts >= 1
    ensures Follow(AtTop(s, a, p, 1), AfterRounds(Round(a), p.maxAttempts - 1, Round(a))) == Some(s)
  {
    var top := AtTop(s, a, p, p.maxAttempts);
    OneRound(s, a, p, p.maxAttempts);
    assert Follow(top, Round(a)) == Some(s);
    RetriesAsOftenAsItMay(s, a, p, p.maxAttempts - 1, Round(a), Some(s));
  }

  function Success(a: ActorId): seq<Event> {
    [RetryReadConfig(a), RetryReadGate(a)] + [DialSucceeds(a)] + [AcquireForCommit(a), FinishCommit(a)]
  }

  lemma DialSucceedsOnce(s: State, a: ActorId, kind: Kind, p: Plan, n: nat)
    ensures Follow(Holding(s, a, Dialing(kind, p.name, p.cfg, p.gate, n, p.maxAttempts)), [DialSucceeds(a)])
         == Some(Holding(s, a, Connected(p.name, Upstream(s.nextId, p.cfg, p.gate))).(nextId := s.nextId + 1))
  {
    var dialling := Dialing(kind, p.name, p.cfg, p.gate, n, p.maxAttempts);
    FollowOne(Holding(s, a, dialling), DialSucceeds(a));
    MovesOn(s, a, dialling, Connected(p.name, Upstream(s.nextId, p.cfg, p.gate)));
  }

  lemma SuccessfulRound(s: State, a: ActorId, p: Plan, n: nat)
    requires s.lock.Free? && IsIdle(s, a, p.name) && IsToday(s, p)
    ensures Follow(AtTop(s, a, p, n), Success(a)) == Some(Replaced(s, p.name, Upstream(s.nextId, p.cfg, p.gate)))
  {
    var look, dial, commit := [RetryReadConfig(a), RetryReadGate(a)], [DialSucceeds(a)],
      [AcquireForCommit(a), FinishCommit(a)];
    LooksBeforeDialling(s, a, p, n);
    DialSucceedsOnce(s, a, Reconnect, p, n);
    FollowInParts(AtTop(s, a, p, n), look, dial);
    FollowInParts(AtTop(s, a, p, n), look + dial, commit);
    DialledIsInstalled(s, a, p.name, Upstream(s.nextId, p.cfg, p.gate));
  }

  // A reconnect that may dial often enough gets through: after n failed dials the next
  // one that succeeds is installed.
  lemma ReconnectAlone(s: State, a: ActorId, p: Plan, n: nat)
    requires s.lock.Free? && IsIdle(s, a, p.name) && IsToday(s, p) && n < p.maxAttempts
    ensures Follow(AtTop(s, a, p, 1), AfterRounds(Round(a), n, Success(a)))
         == Some(Replaced(s, p.name, Upstream(s.nextId, p.cfg, p.gate)))
  {
    SuccessfulRound(s, a, p, n + 1);
    RetriesAsOftenAsItMay(s, a, p, n, Success(a), Some(Replaced(s, p.name, Upstream(s.nextId, p.cfg, p.gate))));
  }

  // And this is where a reconnect gets to by itself, or nowhere when its server is
  // not configured.
  lemma ReconnectBegins(s: State, a: ActorId, name: Name, maxAttempts: nat)
    requires IsIdle(s, a, name) && maxAttempts >= 1
    ensures var begun := Follow(s, [BeginReconnect(a, name, maxAttempts), ReconnectReadConfig(a)]);
            if name !in s.world.config.servers then begun == Some(s)
            else
              && begun.Some?
              && Follow(begun.value, [ReconnectReadGate(a)])
                 == Some(AtTop(s, a, Plan(name, s.world.config.servers[name], s.world.gate, maxAttempts), 1))
  {
    var claimed := ReconnectClaimed(name, maxAttempts);
    FollowTwo(s, Holding(s, a, claimed), BeginReconnect(a, name, maxAttempts), ReconnectReadConfig(a));
    if name in s.world.config.servers {
      var cfg := s.world.config.servers[name];
      MovesOn(s, a, claimed, ReconnectLoaded(name, cfg, maxAttempts));
      ReadsTheGate(s, a, Plan(name, cfg, s.world.gate, maxAttempts));
    } else {
      Leaves(s, a, claimed);
    }
  }

  lemma ReadsTheGate(s: State, a: ActorId, p: Plan)
    requires p.gate == s.world.gate
    ensures Follow(Holding(s, a, ReconnectLoaded(p.name, p.cfg, p.maxAttempts)), [ReconnectReadGate(a)])
         == Some(AtTop(s, a, p, 1))
  {
    var loaded := ReconnectLoaded(p.name, p.cfg, p.maxAttempts);
    FollowOne(Holding(s, a, loaded), ReconnectReadGate(a));
    MovesOn(s, a, loaded, RetryTop(p.name, p.cfg, p.gate, 1, p.maxAttempts));
  }
}
