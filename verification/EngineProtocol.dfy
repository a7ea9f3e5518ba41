/**
 Reloads, restarts and reconnects running side by side. Every read of shared state, every
 attempt to take the lock and every change under it is a step of its own; any task may take
 the next one. Steps are interleaved one at a time (no weak-memory effects).
 */
module EngineProtocol {
  import opened Common
  import opened Reload
  import opened EngineCore

  type ActorId = nat

  datatype Kind = Restart | Reconnect

  // Where a restart or reconnect task stands, with what it has read so far.
  datatype Actor =
    | RestartLoaded(name: Name, cfg: ServerConfig)
    | RestartReady(name: Name, cfg: ServerConfig, gate: Gate)
    | ReconnectClaimed(name: Name, maxAttempts: nat)
    | ReconnectLoaded(name: Name, cfg: ServerConfig, maxAttempts: nat)
    | RetryTop(name: Name, cfg: ServerConfig, gate: Gate, attempt: nat, maxAttempts: nat)
    | RetryCompared(name: Name, cfg: ServerConfig, gate: Gate, attempt: nat, maxAttempts: nat, sameConfig: bool)
    | Dialing(kind: Kind, name: Name, cfg: ServerConfig, gate: Gate, attempt: nat, maxAttempts: nat)
    | Connected(name: Name, upstream: Upstream)
    | Committing(name: Name, upstream: Upstream)

  datatype Phase =
    | Planned
    | Stopping(toStop: set<Name>)
    | Starting(toStart: set<Name>, dials: map<Name, nat>)
    | Swapped(dials: map<Name, nat>)

  datatype Lock =
    | Free
    | CommitHeld(actor: ActorId)
    | ReloadHeld(new_: Config, before: World, phase: Phase)

  datatype State = State(
    world: World,
    lock: Lock,
    actors: map<ActorId, Actor>,
    claims: map<Name, ActorId>,  // the single start slot of each server
    retired: seq<nat>,
    nextId: nat)

  datatype Event =
    | BeginRestart(a: ActorId, name: Name)
    | RestartReadGate(a: ActorId)
    | RestartClaim(a: ActorId)
    | BeginReconnect(a: ActorId, name: Name, maxAttempts: nat)
    | ReconnectReadConfig(a: ActorId)
    | ReconnectReadGate(a: ActorId)
    | RetryReadConfig(a: ActorId)
    | RetryReadGate(a: ActorId)
    | DialSucceeds(a: ActorId)
    | DialFails(a: ActorId, retryable: bool)
    | AcquireForCommit(a: ActorId)
    | FinishCommit(a: ActorId)
    | ReloadAcquire(new_: Config)
    | ReloadSetGate
    | ReloadStop(name: Name)
    | ReloadBeginStarts
    | ReloadStart(name: Name, succeeds: bool)
    | ReloadSwap
    | ReloadRelease

  // -------------------------------------------------------------------------
  // Steps
  // -------------------------------------------------------------------------

  predicate HoldsClaim(actor: Actor) {
    !actor.RestartLoaded? && !actor.RestartReady?
  }

  predicate HoldsConnection(actor: Actor) {
    actor.Connected? || actor.Committing?
  }

  predicate Enabled(s: State, e: Event) {
    match e
    case BeginRestart(a, name) =>
      // An unknown server and one that is off are refused before anything is read further.
      a !in s.actors && name in s.world.config.servers && s.world.config.servers[name].material.enabled
    case RestartReadGate(a) => a in s.actors && s.actors[a].RestartLoaded?
    case RestartClaim(a) => a in s.actors && s.actors[a].RestartReady?
    case BeginReconnect(a, name, maxAttempts) => a !in s.actors && name !in s.claims && maxAttempts >= 1
    case ReconnectReadConfig(a) => a in s.actors && s.actors[a].ReconnectClaimed?
    case ReconnectReadGate(a) => a in s.actors && s.actors[a].ReconnectLoaded?
    case RetryReadConfig(a) => a in s.actors && s.actors[a].RetryTop?
    case RetryReadGate(a) => a in s.actors && s.actors[a].RetryCompared?
    case DialSucceeds(a) => a in s.actors && s.actors[a].Dialing?
    case DialFails(a, _) => a in s.actors && s.actors[a].Dialing?
    case AcquireForCommit(a) => a in s.actors && s.actors[a].Connected? && s.lock.Free?
    case FinishCommit(a) => a in s.actors && s.actors[a].Committing? && s.lock == CommitHeld(a)
    case ReloadAcquire(_) => s.lock.Free?
    case ReloadSetGate => s.lock.ReloadHeld? && s.lock.phase.Planned?
    case ReloadStop(name) => s.lock.ReloadHeld? && s.lock.phase.Stopping? && name in s.lock.phase.toStop
    case ReloadBeginStarts => s.lock.ReloadHeld? && s.lock.phase.Stopping? && s.lock.phase.toStop == {}
    case ReloadStart(name, _) =>
      && s.lock.ReloadHeld? && s.lock.phase.Starting? && name in s.lock.phase.toStart && name in s.lock.new_.servers
    case ReloadSwap => s.lock.ReloadHeld? && s.lock.phase.Starting? && s.lock.phase.toStart == {}
    case ReloadRelease => s.lock.ReloadHeld? && s.lock.phase.Swapped?
  }

  predicate IsReloadEvent(e: Event) {
    || e.ReloadAcquire? || e.ReloadSetGate? || e.ReloadStop? || e.ReloadBeginStarts?
    || e.ReloadStart? || e.ReloadSwap? || e.ReloadRelease?
  }

  function Move(s: State, a: ActorId, actor: Actor): State {
    s.(actors := s.actors[a := actor])
  }

  // The task ends and its start slot is free again.
  function End(s: State, a: ActorId, name: Name): State {
    s.(actors := s.actors - {a}, claims := s.claims - {name})
  }

  function SameConfig(w: World, name: Name, cfg: ServerConfig): bool {
    name in w.config.servers && !ServerConfigChanged(cfg, w.config.servers[name])
  }

  function InPhase(s: State, phase: Phase): State
    requires s.lock.ReloadHeld?
  {
    s.(lock := s.lock.(phase := phase))
  }

  function ActorStep(s: State, e: Event): State
    requires Enabled(s, e)
    requires !IsReloadEvent(e)
  {
    match e
    case BeginRestart(a, name) => Move(s, a, RestartLoaded(name, s.world.config.servers[name]))
    case RestartReadGate(a) =>
      var actor := s.actors[a];
      Move(s, a, RestartReady(actor.name, actor.cfg, s.world.gate))
    case RestartClaim(a) =>
      var actor := s.actors[a];
      if actor.name in s.claims then s.(actors := s.actors - {a})
      else Move(s, a, Dialing(Restart, actor.name, actor.cfg, actor.gate, 1, 1)).(claims := s.claims[actor.name := a])
    case BeginReconnect(a, name, maxAttempts) =>
      Move(s, a, ReconnectClaimed(name, maxAttempts)).(claims := s.claims[name := a])
    case ReconnectReadConfig(a) =>
      var actor := s.actors[a];
      if actor.name in s.world.config.servers
      then Move(s, a, ReconnectLoaded(actor.name, s.world.config.servers[actor.name], actor.maxAttempts))
      else End(s, a, actor.name)
    case ReconnectReadGate(a) =>
      var actor := s.actors[a];
      Move(s, a, RetryTop(actor.name, actor.cfg, s.world.gate, 1, actor.maxAttempts))
    case RetryReadConfig(a) =>
      var t := s.actors[a];
      Move(s, a, RetryCompared(t.name, t.cfg, t.gate, t.attempt, t.maxAttempts, SameConfig(s.world, t.name, t.cfg)))
    case RetryReadGate(a) =>
      var t := s.actors[a];
      if t.sameConfig && (IsLegacy(t.cfg) || t.gate == s.world.gate)
      then Move(s, a, Dialing(Reconnect, t.name, t.cfg, t.gate, t.attempt, t.maxAttempts))
      else End(s, a, t.name)
    case DialSucceeds(a) =>
      var d := s.actors[a];
      Move(s, a, Connected(d.name, Upstream(s.nextId, d.cfg, d.gate))).(nextId := s.nextId + 1)
    case DialFails(a, retryable) =>
      var d := s.actors[a];
      if d.attempt < d.maxAttempts && retryable
      then Move(s, a, RetryTop(d.name, d.cfg, d.gate, d.attempt + 1, d.maxAttempts))
      else End(s, a, d.name)
    case AcquireForCommit(a) =>
      var c := s.actors[a];
      Move(s, a, Committing(c.name, c.upstream)).(lock := CommitHeld(a))
    case FinishCommit(a) =>
      var c := s.actors[a];
      End(s, a, c.name).(
        world := Commit(s.world, c.name, c.upstream.config, c.upstream),
        retired := s.retired + CommitRetires(s.world, c.name, c.upstream.config, c.upstream),
        lock := Free)
  }

  function ReloadStep(s: State, e: Event): State
    requires Enabled(s, e)
    requires IsReloadEvent(e)
  {
    match e
    case ReloadAcquire(new_) => s.(lock := ReloadHeld(new_, s.world, Planned))
    case ReloadSetGate =>
      InPhase(s, Stopping(Stops(s.world.config, s.lock.new_))).(
        world := s.world.(gate := SetGate(s.world.gate, s.lock.new_.modernUpstream)))
    case ReloadStop(name) =>
      InPhase(s, Stopping(s.lock.phase.toStop - {name})).(
        world := s.world.(installed := s.world.installed - {name}),
        retired := if name in s.world.installed then s.retired + [s.world.installed[name].id] else s.retired)
    case ReloadBeginStarts => InPhase(s, Starting(Starts(s.world.config, s.lock.new_), map[]))
    case ReloadStart(name, succeeds) =>
      var p := s.lock.phase;
      if succeeds
      then InPhase(s, Starting(p.toStart - {name}, p.dials[name := s.nextId])).(
             world := s.world.(installed :=
               s.world.installed[name := Upstream(s.nextId, s.lock.new_.servers[name], s.world.gate)]),
             nextId := s.nextId + 1)
      else InPhase(s, Starting(p.toStart - {name}, p.dials))
    case ReloadSwap =>
      InPhase(s, Swapped(s.lock.phase.dials)).(
        world := s.world.(config := s.lock.new_, gate := SetGate(s.world.gate, s.lock.new_.modernUpstream)))
    case ReloadRelease => s.(lock := Free)
  }

  function Step(s: State, e: Event): State
    requires Enabled(s, e)
  {
    if IsReloadEvent(e) then ReloadStep(s, e) else ActorStep(s, e)
  }

  // -------------------------------------------------------------------------
  // Invariant: what is installed
  // -------------------------------------------------------------------------

  // How far the map has come from where the reload found it to where it leaves it.
  predicate ReloadOnCourse(w: World, new_: Config, before: World, phase: Phase) {
    var stops, starts := Stops(before.config, new_), Starts(before.config, new_);
    var gate := SetGate(before.gate, new_.modernUpstream);
    && InstalledCurrent(before) && GateAgrees(before)
    && match phase
       case Planned => w == before
       case Stopping(toStop) =>
         && toStop <= stops && w.config == before.config && w.gate == gate
         && w.installed == before.installed - (stops - toStop)
       case Starting(toStart, dials) =>
         && toStart <= starts && starts <= new_.servers.Keys && dials.Keys !! toStart
         && w.config == before.config && w.gate == gate
         && w.installed == (before.installed - stops) + StartedBy(new_, gate, starts, dials)
       case Swapped(dials) => w == ReloadWorld(before, new_, dials)
  }

  predicate WorldInv(s: State) {
    match s.lock
    case ReloadHeld(new_, before, phase) => ReloadOnCourse(s.world, new_, before, phase)
    case _ => InstalledCurrent(s.world) && GateAgrees(s.world)
  }

  lemma ReloadStopOnCourse(s: State, name: Name)
    requires WorldInv(s) && Enabled(s, ReloadStop(name))
    ensures WorldInv(ReloadStep(s, ReloadStop(name)))
  {
    var stops, toStop := Stops(s.lock.before.config, s.lock.new_), s.lock.phase.toStop;
    assert stops - (toStop - {name}) == (stops - toStop) + {name};
    assert s.world.installed - {name} == s.lock.before.installed - (stops - (toStop - {name}));
  }

  lemma ReloadBeginStartsOnCourse(s: State)
    requires WorldInv(s) && Enabled(s, ReloadBeginStarts)
    ensures WorldInv(ReloadStep(s, ReloadBeginStarts))
  {
    var before, new_ := s.lock.before, s.lock.new_;
    var stops, starts := Stops(before.config, new_), Starts(before.config, new_);
    StartsAreConfigured(before.config, new_);
    assert stops - {} == stops;
    assert StartedBy(new_, s.world.gate, starts, map[]) == map[];
  }

  lemma OneMoreStarted(base: Installed, new_: Config, gate: Gate, starts: set<Name>,
      dials: map<Name, nat>, name: Name, id: nat)
    requires name in starts && starts <= new_.servers.Keys
    ensures (base + StartedBy(new_, gate, starts, dials))[name := Upstream(id, new_.servers[name], gate)]
         == base + StartedBy(new_, gate, starts, dials[name := id])
  {
  }

  lemma ReloadStartOnCourse(s: State, name: Name, succeeds: bool)
    requires WorldInv(s) && Enabled(s, ReloadStart(name, succeeds))
    ensures WorldInv(ReloadStep(s, ReloadStart(name, succeeds)))
  {
    if succeeds {
      var before, new_ := s.lock.before, s.lock.new_;
      OneMoreStarted(before.installed - Stops(before.config, new_), new_, s.world.gate,
                     Starts(before.config, new_), s.lock.phase.dials, name, s.nextId);
    }
  }

  lemma ReloadStepKeepsWorld(s: State, e: Event)
    requires WorldInv(s) && Enabled(s, e)
    requires IsReloadEvent(e)
    ensures WorldInv(ReloadStep(s, e))
  {
    match e
    case ReloadAcquire(_) =>
    case ReloadSetGate =>
      var stops := Stops(s.world.config, s.lock.new_);
      assert s.world.installed == s.world.installed - (stops - stops);
    case ReloadStop(name) => ReloadStopOnCourse(s, name);
    case ReloadBeginStarts => ReloadBeginStartsOnCourse(s);
    case ReloadStart(name, succeeds) => ReloadStartOnCourse(s, name, succeeds);
    case ReloadSwap =>
    case ReloadRelease => ReloadKeepsAgreement(s.lock.before, s.lock.new_, s.lock.phase.dials);
  }

  lemma ActorStepKeepsWorld(s: State, e: Event)
    requires WorldInv(s) && Enabled(s, e)
    requires !IsReloadEvent(e)
    ensures WorldInv(ActorStep(s, e))
  {
    if e.FinishCommit? {
      CommitCheckIsExact(s.world, s.actors[e.a].name, s.actors[e.a].upstream);
    }
  }

  // -------------------------------------------------------------------------
  // Invariant: one start per server
  // -------------------------------------------------------------------------

  predicate ClaimInv(s: State) {
    && (forall a :: a in s.actors && HoldsClaim(s.actors[a]) ==>
          s.actors[a].name in s.claims && s.claims[s.actors[a].name] == a)
    && (forall n :: n in s.claims ==>
          s.claims[n] in s.actors && HoldsClaim(s.actors[s.claims[n]]) && s.actors[s.claims[n]].name == n)
    && (forall a :: a in s.actors && s.actors[a].Committing? ==> s.lock == CommitHeld(a))
    && (s.lock.CommitHeld? ==> s.lock.actor in s.actors && s.actors[s.lock.actor].Committing?)
  }

  // A task that keeps its name and its claim moves on.
  lemma MoveKeepsClaims(s: State, a: ActorId, actor: Actor)
    requires ClaimInv(s) && a in s.actors && !s.actors[a].Committing? && !actor.Committing?
    requires actor.name == s.actors[a].name && HoldsClaim(actor) == HoldsClaim(s.actors[a])
    ensures ClaimInv(Move(s, a, actor))
  {
  }

  // A new task or one that takes the free slot.
  lemma ClaimKeepsClaims(s: State, a: ActorId, actor: Actor)
    requires ClaimInv(s) && actor.name !in s.claims && !actor.Committing?
    requires HoldsClaim(actor) && (a in s.actors ==> !HoldsClaim(s.actors[a]))
    ensures ClaimInv(Move(s, a, actor).(claims := s.claims[actor.name := a]))
  {
  }

  lemma EndKeepsClaims(s: State, a: ActorId)
    requires ClaimInv(s) && a in s.actors && HoldsClaim(s.actors[a])
    ensures ClaimInv(End(s, a, s.actors[a].name).(lock := if s.actors[a].Committing? then Free else s.lock))
  {
  }

  // A new task without the slot, one that is refused it, and one that takes the lock.
  lemma QuietStepKeepsClaims(s: State, e: Event)
    requires ClaimInv(s) && Enabled(s, e)
    requires e.BeginRestart? || e.AcquireForCommit? || (e.RestartClaim? && s.actors[e.a].name in s.claims)
    ensures ClaimInv(ActorStep(s, e))
  {
  }

  lemma TaskStepKeepsClaims(s: State, e: Event)
    requires ClaimInv(s) && Enabled(s, e) && !IsReloadEvent(e)
    requires !e.BeginRestart? && !e.AcquireForCommit? && !e.RestartClaim? && !e.BeginReconnect?
    ensures ClaimInv(ActorStep(s, e))
  {
    var t := ActorStep(s, e);
    if e.a in t.actors {
      MoveKeepsClaims(s, e.a, t.actors[e.a]);
    } else {
      EndKeepsClaims(s, e.a);
    }
  }

  lemma ActorStepKeepsClaims(s: State, e: Event)
    requires ClaimInv(s) && Enabled(s, e)
    requires !IsReloadEvent(e)
    ensures ClaimInv(ActorStep(s, e))
  {
    if e.BeginRestart? || e.AcquireForCommit? || (e.RestartClaim? && s.actors[e.a].name in s.claims) {
      QuietStepKeepsClaims(s, e);
    } else if e.BeginReconnect? || e.RestartClaim? {
      ClaimKeepsClaims(s, e.a, ActorStep(s, e).actors[e.a]);
    } else {
      TaskStepKeepsClaims(s, e);
    }
  }

  lemma ReloadStepKeepsClaims(s: State, e: Event)
    requires ClaimInv(s) && Enabled(s, e)
    requires IsReloadEvent(e)
    ensures ClaimInv(ReloadStep(s, e))
  {
    ReloadTouchesNoTask(s, e);
  }

  lemma ReloadTouchesNoTask(s: State, e: Event)
    requires Enabled(s, e) && IsReloadEvent(e)
    ensures var t := ReloadStep(s, e);
            t.actors == s.actors && t.claims == s.claims && !s.lock.CommitHeld? && !t.lock.CommitHeld?
  {
  }

  // -------------------------------------------------------------------------
  // Invariant: where every connection is
  // -------------------------------------------------------------------------

  function MapIds(installed: Installed): set<nat> {
    set name | name in installed :: installed[name].id
  }

  function HeldIds(actors: map<ActorId, Actor>): set<nat> {
    set a | a in actors && HoldsConnection(actors[a]) :: actors[a].upstream.id
  }

  function RetiredIds(retired: seq<nat>): set<nat> {
    set id | id in retired
  }

  predicate DistinctHolders(actors: map<ActorId, Actor>) {
    forall a, b |
      && a in actors && HoldsConnection(actors[a])
      && b in actors && HoldsConnection(actors[b])
      && actors[a].upstream.id == actors[b].upstream.id :: a == b
  }

  // Every connection ever opened is in exactly one place, once: in the map, in
  // the hands of whoever dialled it, or retired.
  ghost predicate Accounted(s: State) {
    && DistinctIds(s.world.installed) && DistinctHolders(s.actors) && NoDuplicates(s.retired)
    && MapIds(s.world.installed) !! HeldIds(s.actors)
    && MapIds(s.world.installed) !! RetiredIds(s.retired)
    && HeldIds(s.actors) !! RetiredIds(s.retired)
    && (forall id: nat :: id < s.nextId
          <==> id in MapIds(s.world.installed) || id in HeldIds(s.actors) || id in RetiredIds(s.retired))
  }

  function OldId(installed: Installed, name: Name): set<nat> {
    if name in installed then {installed[name].id} else {}
  }

  lemma InstallIds(m: Installed, name: Name, u: Upstream)
    requires DistinctIds(m) && u.id !in MapIds(m)
    ensures DistinctIds(m[name := u])
    ensures MapIds(m[name := u]) == MapIds(m) - OldId(m, name) + {u.id}
  {
    var after := m[name := u];
    forall n | n in m ensures m[n].id in MapIds(m) {}
    forall id | id in MapIds(m) - OldId(m, name) + {u.id} ensures id in MapIds(after) {
      if id == u.id {
        assert after[name].id == id;
      } else {
        var n :| n in m && m[n].id == id;
        assert after[n].id == id;
      }
    }
  }

  lemma UninstallIds(m: Installed, name: Name)
    requires DistinctIds(m)
    ensures DistinctIds(m - {name})
    ensures MapIds(m - {name}) == MapIds(m) - OldId(m, name)
  {
    var after := m - {name};
    forall id | id in MapIds(m) - OldId(m, name) ensures id in MapIds(after) {
      var n :| n in m && m[n].id == id;
      assert n in after && after[n].id == id;
    }
  }

  function IdOf(actors: map<ActorId, Actor>, a: ActorId): set<nat> {
    if a in actors && HoldsConnection(actors[a]) then {actors[a].upstream.id} else {}
  }

  function IdIn(actor: Actor): set<nat> {
    if HoldsConnection(actor) then {actor.upstream.id} else {}
  }

  lemma MoveIds(actors: map<ActorId, Actor>, a: ActorId, actor: Actor)
    requires DistinctHolders(actors)
    requires IdIn(actor) !! HeldIds(actors) - IdOf(actors, a)
    ensures DistinctHolders(actors[a := actor])
    ensures HeldIds(actors[a := actor]) == HeldIds(actors) - IdOf(actors, a) + IdIn(actor)
  {
    var after := actors[a := actor];
    forall b | b in actors && HoldsConnection(actors[b]) && b != a
      ensures actors[b].upstream.id in HeldIds(actors) - IdOf(actors, a)
    {
    }
    forall id | id in HeldIds(actors) - IdOf(actors, a) + IdIn(actor) ensures id in HeldIds(after) {
      if id in IdIn(actor) {
        assert after[a].upstream.id == id;
      } else {
        var b :| b in actors && HoldsConnection(actors[b]) && actors[b].upstream.id == id;
        assert b != a && after[b].upstream.id == id;
      }
    }
  }

  lemma EndIds(actors: map<ActorId, Actor>, a: ActorId)
    requires DistinctHolders(actors)
    ensures DistinctHolders(actors - {a})
    ensures HeldIds(actors - {a}) == HeldIds(actors) - IdOf(actors, a)
  {
    var after := actors - {a};
    forall id | id in HeldIds(actors) - IdOf(actors, a) ensures id in HeldIds(after) {
      var b :| b in actors && HoldsConnection(actors[b]) && actors[b].upstream.id == id;
      assert b in after && after[b].upstream.id == id;
    }
  }

  lemma RetireIds(retired: seq<nat>, id: nat)
    requires NoDuplicates(retired) && id !in RetiredIds(retired)
    ensures NoDuplicates(retired + [id])
    ensures RetiredIds(retired + [id]) == RetiredIds(retired) + {id}
  {
  }

  // A server about to be started by a reload has no connection in the map.
  lemma StartTargetIsVacant(s: State, name: Name)
    requires WorldInv(s) && s.lock.ReloadHeld? && s.lock.phase.Starting? && name in s.lock.phase.toStart
    ensures name !in s.world.installed
  {
    DiffPartitions(s.lock.before.config, s.lock.new_, name);
    var before := s.lock.before;
    assert name in before.installed ==>
      Agrees(before, name, before.installed[name].config, before.installed[name].gate);
  }

  lemma FinishCommitAccounted(s: State, a: ActorId)
    requires Accounted(s) && Enabled(s, FinishCommit(a))
    ensures Accounted(ActorStep(s, FinishCommit(a)))
  {
    var c := s.actors[a];
    assert c.upstream.id in HeldIds(s.actors);
    EndIds(s.actors, a);
    if CommitAccepts(s.world, c.name, c.upstream.config, c.upstream) {
      InstallIds(s.world.installed, c.name, c.upstream);
      if c.name in s.world.installed {
        var old_ := s.world.installed[c.name].id;
        assert old_ in MapIds(s.world.installed);
        RetireIds(s.retired, old_);
      }
    } else {
      RetireIds(s.retired, c.upstream.id);
    }
  }

  lemma DialAccounted(s: State, a: ActorId)
    requires Accounted(s) && Enabled(s, DialSucceeds(a))
    ensures Accounted(ActorStep(s, DialSucceeds(a)))
  {
    assert s.nextId !in HeldIds(s.actors);
    MoveIds(s.actors, a, ActorStep(s, DialSucceeds(a)).actors[a]);
  }

  lemma SameIdsAccounted(s: State, t: State)
    requires Accounted(s) && DistinctHolders(t.actors) && HeldIds(t.actors) == HeldIds(s.actors)
    requires t.world.installed == s.world.installed && t.retired == s.retired && t.nextId == s.nextId
    ensures Accounted(t)
  {
  }

  lemma OtherStepHoldsTheSame(s: State, e: Event)
    requires DistinctHolders(s.actors) && Enabled(s, e)
    requires !IsReloadEvent(e) && !e.FinishCommit? && !e.DialSucceeds?
    ensures var t := ActorStep(s, e);
            && DistinctHolders(t.actors) && HeldIds(t.actors) == HeldIds(s.actors)
            && t.world.installed == s.world.installed && t.retired == s.retired && t.nextId == s.nextId
  {
    var t := ActorStep(s, e);
    if e.a in t.actors {
      MoveIds(s.actors, e.a, t.actors[e.a]);
    } else {
      EndIds(s.actors, e.a);
    }
  }

  lemma ActorStepAccounted(s: State, e: Event)
    requires Accounted(s) && Enabled(s, e)
    requires !IsReloadEvent(e)
    ensures Accounted(ActorStep(s, e))
  {
    if e.FinishCommit? {
      FinishCommitAccounted(s, e.a);
    } else if e.DialSucceeds? {
      DialAccounted(s, e.a);
    } else {
      OtherStepHoldsTheSame(s, e);
      SameIdsAccounted(s, ActorStep(s, e));
    }
  }

  lemma ReloadStopAccounted(s: State, e: Event)
    requires Accounted(s) && Enabled(s, e) && e.ReloadStop?
    ensures Accounted(ReloadStep(s, e))
  {
    UninstallIds(s.world.installed, e.name);
    if e.name in s.world.installed {
      assert s.world.installed[e.name].id in MapIds(s.world.installed);
      RetireIds(s.retired, s.world.installed[e.name].id);
    }
  }

  lemma ReloadStartAccounted(s: State, e: Event)
    requires Accounted(s) && Enabled(s, e) && e.ReloadStart? && (e.succeeds ==> e.name !in s.world.installed)
    ensures Accounted(ReloadStep(s, e))
  {
    if e.succeeds {
      InstallIds(s.world.installed, e.name, Upstream(s.nextId, s.lock.new_.servers[e.name], s.world.gate));
    }
  }

  lemma ReloadStepAccounted(s: State, e: Event)
    requires Accounted(s) && Enabled(s, e) && IsReloadEvent(e)
    requires e.ReloadStart? && e.succeeds ==> e.name !in s.world.installed
    ensures Accounted(ReloadStep(s, e))
  {
    if e.ReloadStop? {
      ReloadStopAccounted(s, e);
    } else if e.ReloadStart? {
      ReloadStartAccounted(s, e);
    }
  }

  // -------------------------------------------------------------------------
  // Runs
  // -------------------------------------------------------------------------

  ghost predicate Inv(s: State) {
    WorldInv(s) && ClaimInv(s) && Accounted(s)
  }

  lemma InvStep(s: State, e: Event)
    requires Inv(s) && Enabled(s, e)
    ensures Inv(Step(s, e))
  {
    if IsReloadEvent(e) {
      ReloadStepKeepsWorld(s, e);
      ReloadStepKeepsClaims(s, e);
      if e.ReloadStart? {
        StartTargetIsVacant(s, e.name);
      }
      ReloadStepAccounted(s, e);
    } else {
      ActorStepKeepsWorld(s, e);
      ActorStepKeepsClaims(s, e);
      ActorStepAccounted(s, e);
    }
  }

  // No task under way; whatever is installed agrees with the configuration.
  ghost predicate Initial(s: State) {
    && s.lock == Free && s.actors == map[] && s.claims == map[]
    && InstalledCurrent(s.world) && GateAgrees(s.world)
    && DistinctIds(s.world.installed) && s.retired == []
    && (forall id: nat :: id < s.nextId <==> id in MapIds(s.world.installed))
  }

  ghost predicate IsRun(states: seq<State>, events: seq<Event>) {
    && |states| == |events| + 1
    && Initial(states[0])
    && forall i :: 0 <= i < |events| ==> Enabled(states[i], events[i]) && states[i + 1] == Step(states[i], events[i])
  }

  lemma {:induction false} InvOverRun(states: seq<State>, events: seq<Event>, i: nat)
    requires IsRun(states, events) && i < |states|
    ensures Inv(states[i])
  {
    if i > 0 {
      InvOverRun(states, events, i - 1);
      assert Enabled(states[i - 1], events[i - 1]);
      InvStep(states[i - 1], events[i - 1]);
    }
  }

  // Whenever the lock is free, every installed connection is the configured
  // server's, in today's material configuration and under today's gate; a
  // server that is not configured is not installed.
  lemma InstalledAlwaysCurrent(states: seq<State>, events: seq<Event>, i: nat)
    requires IsRun(states, events) && i < |states| && states[i].lock.Free?
    ensures InstalledCurrent(states[i].world)
    ensures forall name :: name !in states[i].world.config.servers ==> name !in states[i].world.installed
  {
    InvOverRun(states, events, i);
    var w := states[i].world;
    forall name | name in w.installed ensures name in w.config.servers {
      assert Agrees(w, name, w.installed[name].config, w.installed[name].gate);
    }
  }

  // Every connection opened so far is in exactly one place, and was retired at
  // most once: none leaks and none is both installed and retired.
  lemma NoConnectionLeaksOrIsRetiredTwice(states: seq<State>, events: seq<Event>, i: nat, id: nat)
    requires IsRun(states, events) && i < |states| && id < states[i].nextId
    ensures var installed := id in MapIds(states[i].world.installed);
            var held := id in HeldIds(states[i].actors);
            var gone := id in states[i].retired;
            && (installed || held || gone)
            && !(installed && held) && !(installed && gone) && !(held && gone)
            && NoDuplicates(states[i].retired)
  {
    InvOverRun(states, events, i);
    var s := states[i];
    assert id in s.retired <==> id in RetiredIds(s.retired);
  }

  lemma StepKeepsRetired(states: seq<State>, events: seq<Event>, i: nat)
    requires IsRun(states, events) && i < |events|
    ensures states[i].retired <= states[i + 1].retired
  {
    assert Enabled(states[i], events[i]) && states[i + 1] == Step(states[i], events[i]);
  }

  lemma RetiredAreGone(earlier: seq<nat>, s: State)
    requires Accounted(s) && earlier <= s.retired
    ensures forall id :: id in earlier ==> id !in MapIds(s.world.installed)
  {
    forall id | id in earlier ensures id in RetiredIds(s.retired) {}
  }

  lemma {:induction false} GrowsOnAndOn(lists: seq<seq<nat>>, i: nat, j: nat)
    requires i <= j < |lists|
    requires forall k, m :: 0 <= k < m < |lists| && m == k + 1 ==> lists[k] <= lists[m]
    ensures lists[i] <= lists[j]
    decreases j - i
  {
    if i < j {
      GrowsOnAndOn(lists, i, j - 1);
    }
  }

  lemma RetiredGrows(states: seq<State>, events: seq<Event>, i: nat, j: nat)
    requires IsRun(states, events) && i <= j < |states|
    ensures states[i].retired <= states[j].retired
  {
    var lists := seq(|states|, k requires 0 <= k < |states| => states[k].retired);
    forall k, m | 0 <= k < m < |lists| && m == k + 1 ensures lists[k] <= lists[m] {
      StepKeepsRetired(states, events, k);
    }
    GrowsOnAndOn(lists, i, j);
  }

  // A connection once retired stays retired and is not installed again.
  lemma RetirementIsFinal(states: seq<State>, events: seq<Event>, i: nat, j: nat)
    requires IsRun(states, events) && i <= j < |states|
    ensures states[i].retired <= states[j].retired
    ensures forall id :: id in states[i].retired ==> id !in MapIds(states[j].world.installed)
  {
    RetiredGrows(states, events, i, j);
    InvOverRun(states, events, j);
    RetiredAreGone(states[i].retired, states[j]);
  }

  // Two tasks never dial, hold or commit connections for one server at a time.
  lemma OneStartPerServer(states: seq<State>, events: seq<Event>, i: nat, a: ActorId, b: ActorId)
    requires IsRun(states, events) && i < |states|
    requires a in states[i].actors && b in states[i].actors
    requires HoldsClaim(states[i].actors[a]) && HoldsClaim(states[i].actors[b])
    ensures states[i].actors[a].name == states[i].actors[b].name ==> a == b
  {
    InvOverRun(states, events, i);
  }

  // However its stop and start steps interleave with the other tasks, a reload
  // that has swapped its configuration in leaves the world of the closed form.
  lemma ReloadReachesClosedForm(states: seq<State>, events: seq<Event>, i: nat)
    requires IsRun(states, events) && i < |states|
    requires states[i].lock.ReloadHeld? && states[i].lock.phase.Swapped?
    ensures states[i].world == ReloadWorld(states[i].lock.before, states[i].lock.new_, states[i].lock.phase.dials)
  {
    InvOverRun(states, events, i);
  }

  lemma ActorStepLeavesReload(s: State, e: Event)
    requires Enabled(s, e) && !IsReloadEvent(e) && s.lock.ReloadHeld?
    ensures ActorStep(s, e).lock == s.lock
  {
  }

  // In events a to i the reload started at a dials the server, and it answers.
  ghost predicate Answers(events: seq<Event>, a: nat, i: nat, name: Name)
    requires i <= |events|
  {
    exists k :: a < k < i && events[k] == ReloadStart(name, true)
  }

  // Events a to i are those of one reload, and of other tasks meanwhile.
  ghost predicate IsReload(events: seq<Event>, a: nat, i: nat) {
    a < i <= |events| && events[a].ReloadAcquire? && forall k :: a < k < i ==> !events[k].ReloadRelease?
  }

  // What the reload still has on record of the moment it began, and of its dials.
  ghost predicate RecordsReload(s: State, events: seq<Event>, a: nat, i: nat, before: World, new_: Config)
    requires i <= |events|
  {
    && s.lock.ReloadHeld? && s.lock.new_ == new_ && s.lock.before == before
    && forall name :: name in DialsSoFar(s.lock) <==> Answers(events, a, i, name)
  }

  lemma OneMoreAnswer(events: seq<Event>, a: nat, i: nat, name: Name)
    requires a < i < |events|
    ensures Answers(events, a, i + 1, name) <==> Answers(events, a, i, name) || events[i] == ReloadStart(name, true)
  {
  }

  lemma RecordedStep(s: State, events: seq<Event>, a: nat, i: nat, before: World, new_: Config)
    requires a < i < |events| && Enabled(s, events[i]) && !events[i].ReloadRelease?
    requires RecordsReload(s, events, a, i, before, new_)
    ensures RecordsReload(Step(s, events[i]), events, a, i + 1, before, new_)
  {
    forall name
      ensures Answers(events, a, i + 1, name) <==> Answers(events, a, i, name) || events[i] == ReloadStart(name, true)
    {
      OneMoreAnswer(events, a, i, name);
    }
    if IsReloadEvent(events[i]) {
      ReloadStepRecords(s, events[i]);
    } else {
      ActorStepLeavesReload(s, events[i]);
    }
  }

  // The dials on record, none before the starts.
  function DialsSoFar(lock: Lock): map<Name, nat>
    requires lock.ReloadHeld?
  {
    match lock.phase
    case Starting(_, dials) => dials
    case Swapped(dials) => dials
    case _ => map[]
  }

  lemma ReloadStepRecords(s: State, e: Event)
    requires Enabled(s, e) && IsReloadEvent(e) && s.lock.ReloadHeld? && !e.ReloadRelease?
    ensures var t := ReloadStep(s, e);
            && t.lock.ReloadHeld? && t.lock.new_ == s.lock.new_ && t.lock.before == s.lock.before
            && DialsSoFar(t.lock).Keys
               == DialsSoFar(s.lock).Keys + if e.ReloadStart? && e.succeeds then {e.name} else {}
  {
  }

  lemma OneMoreRecorded(states: seq<State>, events: seq<Event>, a: nat, i: nat)
    requires IsRun(states, events) && a < i < |events| && events[a].ReloadAcquire? && !events[i].ReloadRelease?
    requires RecordsReload(states[i], events, a, i, states[a].world, events[a].new_)
    ensures RecordsReload(states[i + 1], events, a, i + 1, states[a].world, events[a].new_)
  {
    StepOfRun(states, events, i);
    RecordedStep(states[i], events, a, i, states[a].world, events[a].new_);
  }

  lemma {:induction false} ReloadIsRecorded(states: seq<State>, events: seq<Event>, a: nat, i: nat)
    requires IsRun(states, events) && IsReload(events, a, i)
    ensures RecordsReload(states[i], events, a, i, states[a].world, events[a].new_)
    decreases i
  {
    if i == a + 1 {
      AcquiredIsRecorded(states, events, a);
    } else {
      ReloadIsRecorded(states, events, a, i - 1);
      OneMoreRecorded(states, events, a, i - 1);
    }
  }

  lemma StepOfRun(states: seq<State>, events: seq<Event>, i: nat)
    requires IsRun(states, events) && i < |events|
    ensures Enabled(states[i], events[i]) && states[i + 1] == Step(states[i], events[i])
  {
  }

  lemma AcquiredIsRecorded(states: seq<State>, events: seq<Event>, a: nat)
    requires IsRun(states, events) && a < |events| && events[a].ReloadAcquire?
    ensures RecordsReload(states[a + 1], events, a, a + 1, states[a].world, events[a].new_)
  {
    StepOfRun(states, events, a);
  }

  // Which servers are up when an interleaved reload has swapped its configuration
  // in: those that were up when it took the lock and are unchanged, and those that
  // are on, are new or changed, and answered one of its dials.
  lemma ReloadInstallsExactly(states: seq<State>, events: seq<Event>, a: nat, i: nat, name: Name)
    requires IsRun(states, events) && IsReload(events, a, i)
    requires states[i].lock.ReloadHeld? && states[i].lock.phase.Swapped?
    ensures var w, new_ := states[a].world, events[a].new_;
            && states[i].world.config == new_
            && (name in states[i].world.installed <==>
                  || (name in w.installed && IsUnchanged(w, new_, name))
                  || (name in new_.servers && new_.servers[name].material.enabled
                      && !IsUnchanged(w, new_, name) && Answers(events, a, i, name)))
  {
    ReloadIsRecorded(states, events, a, i);
    ReloadReachesClosedForm(states, events, i);
    InvOverRun(states, events, a);
    assert Enabled(states[a], events[a]);
    InstalledAfterReload(states[a].world, events[a].new_, states[i].lock.phase.dials, name);
  }

  // -------------------------------------------------------------------------
  // Servers that are off
  // -------------------------------------------------------------------------

  predicate InstalledEnabled(w: World) {
    forall name :: name in w.installed ==> w.installed[name].config.material.enabled
  }

  // A reload only starts servers that are on, and a restart refuses one that is
  // off, but a reconnect dials whatever configuration it reads. A commit leaves
  // no server running that is off exactly when it refuses, or the connection it
  // installs was dialled with the server on.
  lemma CommitKeepsOffServersDown(s: State, a: ActorId)
    requires Inv(s) && Enabled(s, FinishCommit(a)) && InstalledEnabled(s.world)
    ensures var c := s.actors[a];
            (InstalledEnabled(Step(s, FinishCommit(a)).world)
             <==> (CommitAccepts(s.world, c.name, c.upstream.config, c.upstream) ==>
                     c.upstream.config.material.enabled))
  {
    var c := s.actors[a];
    var after := Step(s, FinishCommit(a)).world;
    if CommitAccepts(s.world, c.name, c.upstream.config, c.upstream) {
      assert c.name in after.installed;
    }
  }

  function KnownConfig(actor: Actor): Option<ServerConfig> {
    if actor.ReconnectClaimed? then None
    else if HoldsConnection(actor) then Some(actor.upstream.config)
    else Some(actor.cfg)
  }

  ghost predicate OnlyOnServers(s: State) {
    && InstalledEnabled(s.world)
    && forall a :: a in s.actors && KnownConfig(s.actors[a]).Some? ==> KnownConfig(s.actors[a]).value.material.enabled
  }

  // The reconnect task looks the server up while it is off.
  predicate ReadsOffServer(s: State, e: Event) {
    && e.ReconnectReadConfig? && Enabled(s, e)
    && var name := s.actors[e.a].name;
       name in s.world.config.servers && !s.world.config.servers[name].material.enabled
  }

  lemma ReloadKeepsOnlyOnServers(s: State, e: Event)
    requires Inv(s) && OnlyOnServers(s) && Enabled(s, e) && IsReloadEvent(e)
    ensures OnlyOnServers(ReloadStep(s, e))
  {
    var t := ReloadStep(s, e);
    assert t.actors == s.actors;
    if e.ReloadStart? && e.succeeds {
      assert e.name in Starts(s.lock.before.config, s.lock.new_);
    }
  }

  predicate KnownOn(actor: Actor) {
    KnownConfig(actor).Some? ==> KnownConfig(actor).value.material.enabled
  }

  lemma MoverKnownOn(s: State, e: Event)
    requires OnlyOnServers(s) && Enabled(s, e) && !IsReloadEvent(e) && !ReadsOffServer(s, e)
    ensures e.a in ActorStep(s, e).actors ==> KnownOn(ActorStep(s, e).actors[e.a])
    ensures InstalledEnabled(ActorStep(s, e).world)
  {
    assert e.a in s.actors ==> KnownOn(s.actors[e.a]);
  }

  lemma OthersStay(s: State, e: Event)
    requires Enabled(s, e) && !IsReloadEvent(e)
    ensures forall a :: a in ActorStep(s, e).actors && a != e.a ==>
              a in s.actors && ActorStep(s, e).actors[a] == s.actors[a]
  {
  }

  lemma ActorKeepsOnlyOnServers(s: State, e: Event)
    requires OnlyOnServers(s) && Enabled(s, e) && !IsReloadEvent(e) && !ReadsOffServer(s, e)
    ensures OnlyOnServers(ActorStep(s, e))
  {
    MoverKnownOn(s, e);
    OthersStay(s, e);
  }

  // As long as no reconnect looks up a server that is off, no server that was
  // dialled off is ever installed, in any run.
  lemma {:induction false} OffServersStayDown(states: seq<State>, events: seq<Event>, i: nat)
    requires IsRun(states, events) && i < |states|
    requires InstalledEnabled(states[0].world)
    requires forall k :: 0 <= k < |events| ==> !ReadsOffServer(states[k], events[k])
    ensures OnlyOnServers(states[i])
  {
    if i > 0 {
      OffServersStayDown(states, events, i - 1);
      InvOverRun(states, events, i - 1);
      assert Enabled(states[i - 1], events[i - 1]);
      if IsReloadEvent(events[i - 1]) {
        ReloadKeepsOnlyOnServers(states[i - 1], events[i - 1]);
      } else {
        ActorKeepsOnlyOnServers(states[i - 1], events[i - 1]);
      }
    }
  }

  function Off(on: ServerConfig): ServerConfig {
    on.(material := on.material.(enabled := false))
  }

  // A recovery claims its slot while the server is on; a reload turns the server
  // off and stops it; the recovery looks the server up, dials and commits.
  function TurnedOffState(name: Name, on: ServerConfig, k: nat): State {
    var off := Off(on);
    var was, config := Upstream(0, on, 0), Config(map[name := off], false);
    var before := World(Config(map[name := on], false), 0, map[name := was]);
    var stopped, after := before.(installed := map[]), World(config, 0, map[]);
    var dialled := Upstream(1, off, 0);
    var claimed := map[0 := ReconnectClaimed(name, 1)];
    var during := (w: World, phase: Phase, retired: seq<nat>) =>
      State(w, ReloadHeld(config, before, phase), claimed, map[name := 0], retired, 1);
    var reading := (actor: Actor) => State(after, Free, map[0 := actor], map[name := 0], [0], 1);
    match k
    case 0 => State(before, Free, map[], map[], [], 1)
    case 1 => State(before, Free, claimed, map[name := 0], [], 1)
    case 2 => during(before, Planned, [])
    case 3 => during(before, Stopping({name}), [])
    case 4 => during(stopped, Stopping({}), [0])
    case 5 => during(stopped, Starting({}, map[]), [0])
    case 6 => during(after, Swapped(map[]), [0])
    case 7 => reading(ReconnectClaimed(name, 1))
    case 8 => reading(ReconnectLoaded(name, off, 1))
    case 9 => reading(RetryTop(name, off, 0, 1, 1))
    case 10 => reading(RetryCompared(name, off, 0, 1, 1, true))
    case 11 => reading(Dialing(Reconnect, name, off, 0, 1, 1))
    case 12 => reading(Connected(name, dialled)).(nextId := 2)
    case 13 => reading(Committing(name, dialled)).(nextId := 2, lock := CommitHeld(0))
    case _ => State(after.(installed := map[name := dialled]), Free, map[], map[], [0], 2)
  }

  function TurnedOffEvent(name: Name, on: ServerConfig, k: nat): Event {
    match k
    case 0 => BeginReconnect(0, name, 1)
    case 1 => ReloadAcquire(Config(map[name := Off(on)], false))
    case 2 => ReloadSetGate
    case 3 => ReloadStop(name)
    case 4 => ReloadBeginStarts
    case 5 => ReloadSwap
    case 6 => ReloadRelease
    case 7 => ReconnectReadConfig(0)
    case 8 => ReconnectReadGate(0)
    case 9 => RetryReadConfig(0)
    case 10 => RetryReadGate(0)
    case 11 => DialSucceeds(0)
    case 12 => AcquireForCommit(0)
    case _ => FinishCommit(0)
  }

  lemma TurningOffStops(name: Name, on: ServerConfig)
    requires on.material.enabled
    ensures var old_, new_ := Config(map[name := on], false), Config(map[name := Off(on)], false);
            Stops(old_, new_) == {name} && Starts(old_, new_) == {}
  {
    assert ServerConfigChanged(on, Off(on));
  }

  lemma TurnedOffPlanStep(name: Name, on: ServerConfig, k: nat)
    requires on.material.enabled && k < 3
    ensures Enabled(TurnedOffState(name, on, k), TurnedOffEvent(name, on, k))
    ensures TurnedOffState(name, on, k + 1) == Step(TurnedOffState(name, on, k), TurnedOffEvent(name, on, k))
  {
    TurningOffStops(name, on);
  }

  lemma TurnedOffReloadStep(name: Name, on: ServerConfig, k: nat)
    requires on.material.enabled && 3 <= k < 7
    ensures Enabled(TurnedOffState(name, on, k), TurnedOffEvent(name, on, k))
    ensures TurnedOffState(name, on, k + 1) == Step(TurnedOffState(name, on, k), TurnedOffEvent(name, on, k))
  {
    TurningOffStops(name, on);
    assert map[name := Upstream(0, on, 0)] - {name} == map[] && {name} - {name} == {};
  }

  lemma TurnedOffLookStep(name: Name, on: ServerConfig, k: nat)
    requires 7 <= k < 11
    ensures Enabled(TurnedOffState(name, on, k), TurnedOffEvent(name, on, k))
    ensures TurnedOffState(name, on, k + 1) == Step(TurnedOffState(name, on, k), TurnedOffEvent(name, on, k))
  {
  }

  lemma TurnedOffCommitStep(name: Name, on: ServerConfig, k: nat)
    requires 11 <= k < 14
    ensures Enabled(TurnedOffState(name, on, k), TurnedOffEvent(name, on, k))
    ensures TurnedOffState(name, on, k + 1) == Step(TurnedOffState(name, on, k), TurnedOffEvent(name, on, k))
  {
  }

  // Without that condition it happens: a reload has turned the server off and
  // stopped it, a recovery under way looks it up again, and it is back up.
  lemma ReconnectCanStartServerThatIsOff(name: Name, on: ServerConfig) returns (states: seq<State>, events: seq<Event>)
    requires on.material.enabled
    ensures IsRun(states, events) && InstalledEnabled(states[0].world) && |states| == 15
    ensures events[0] == BeginReconnect(0, name, 1) && states[0].world.config.servers == map[name := on]
    ensures states[7].lock == Free && states[7].world.installed == map[]
            && states[7].world.config.servers == map[name := Off(on)]
    ensures var last := states[|states| - 1];
            && last.lock == Free && last.actors == map[]
            && last.world.config.servers == map[name := Off(on)] && name in last.world.installed
  {
    states := seq(15, k requires 0 <= k => TurnedOffState(name, on, k));
    events := seq(14, k requires 0 <= k => TurnedOffEvent(name, on, k));
    forall i | 0 <= i < |events| ensures Enabled(states[i], events[i]) && states[i + 1] == Step(states[i], events[i]) {
      if i < 3 {
        TurnedOffPlanStep(name, on, i);
      } else if i < 7 {
        TurnedOffReloadStep(name, on, i);
      } else if i < 11 {
        TurnedOffLookStep(name, on, i);
      } else {
        TurnedOffCommitStep(name, on, i);
      }
    }
    TurnedOffStartIsInitial(name, on);
  }

  lemma TurnedOffStartIsInitial(name: Name, on: ServerConfig)
    ensures Initial(TurnedOffState(name, on, 0))
  {
    var s := TurnedOffState(name, on, 0);
    assert s.world.installed[name].id == 0;
    assert MapIds(s.world.installed) == {0};
  }
}
