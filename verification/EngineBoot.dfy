/**
 Servers started at boot, registered one by one as their starts settle, without the lock, while
 reloads, restarts and reconnects are already under way.
 */
module EngineBoot {
  import opened Common
  import opened Reload
  import opened EngineCore
  import opened EngineProtocol

  // A boot-time start that succeeds: the entry is overwritten, and what it held
  // is dropped without being retired.
  function RegisterAtBoot(s: State, name: Name, cfg: ServerConfig, gate: Gate): State {
    s.(world := RegisterStarted(s.world, name, Upstream(s.nextId, cfg, gate)), nextId := s.nextId + 1)
  }

  // Every connection is still accounted for exactly when the entry was vacant;
  // one that stood there is afterwards nowhere: not installed, not held and not
  // retired.
  lemma BootRegistrationLeaksExactly(s: State, name: Name, cfg: ServerConfig, gate: Gate)
    requires Accounted(s)
    ensures Accounted(RegisterAtBoot(s, name, cfg, gate)) <==> name !in s.world.installed
    ensures name in s.world.installed ==>
              var t, lost := RegisterAtBoot(s, name, cfg, gate), s.world.installed[name].id;
              lost !in MapIds(t.world.installed) && lost !in HeldIds(t.actors) && lost !in t.retired
  {
    var t := RegisterAtBoot(s, name, cfg, gate);
    InstallIds(s.world.installed, name, Upstream(s.nextId, cfg, gate));
    if name in s.world.installed {
      var lost := s.world.installed[name].id;
      assert lost in MapIds(s.world.installed);
      assert lost < s.nextId && lost !in RetiredIds(s.retired);
      assert lost !in MapIds(t.world.installed);
    }
  }

  // A start of a reload overwrites in the same way.
  lemma ReloadStartLeaks(s: State, name: Name)
    requires Accounted(s) && Enabled(s, ReloadStart(name, true)) && name in s.world.installed
    ensures !Accounted(ReloadStep(s, ReloadStart(name, true)))
  {
    var t := ReloadStep(s, ReloadStart(name, true));
    var lost := s.world.installed[name].id;
    InstallIds(s.world.installed, name, Upstream(s.nextId, s.lock.new_.servers[name], s.world.gate));
    assert lost in MapIds(s.world.installed);
    assert lost < s.nextId && lost !in RetiredIds(s.retired) && lost !in HeldIds(s.actors);
    assert lost !in MapIds(t.world.installed);
  }

  // -------------------------------------------------------------------------
  // What a reload under way leaves behind
  // -------------------------------------------------------------------------

  // What is owed at every moment: no connection is lost, and unless a reload is
  // under way each one installed is current.
  ghost predicate Owed(s: State) {
    Accounted(s) && (!s.lock.ReloadHeld? ==> InstalledCurrent(s.world))
  }

  // The configuration and the gate, which no registration touches.
  predicate ConfigOnCourse(s: State) {
    match s.lock
    case ReloadHeld(new_, before, phase) =>
      var gate := SetGate(before.gate, new_.modernUpstream);
      && GateAgrees(before)
      && (match phase
          case Planned => s.world.config == before.config && s.world.gate == before.gate
          case Stopping(_) => s.world.config == before.config && s.world.gate == gate
          case Starting(_, _) => s.world.config == before.config && s.world.gate == gate
          case Swapped(_) => s.world.config == new_ && s.world.gate == gate)
    case _ => GateAgrees(s.world)
  }

  // The servers the reload has yet to stop.
  function StillToStop(lock: Lock): set<Name>
    requires lock.ReloadHeld?
  {
    match lock.phase
    case Planned => Stops(lock.before.config, lock.new_)
    case Stopping(toStop) => toStop
    case _ => {}
  }

  // Current under the configuration the reload is bringing in.
  predicate WillFit(lock: Lock, name: Name, u: Upstream)
    requires lock.ReloadHeld?
  {
    Agrees(World(lock.new_, SetGate(lock.before.gate, lock.new_.modernUpstream), map[]), name, u.config, u.gate)
  }

  // During a reload each installed connection is still to be stopped or will fit.
  predicate MapOnCourse(s: State) {
    if s.lock.ReloadHeld?
    then forall name :: name in s.world.installed ==>
           name in StillToStop(s.lock) || WillFit(s.lock, name, s.world.installed[name])
    else InstalledCurrent(s.world)
  }

  ghost predicate BootInv(s: State) {
    ConfigOnCourse(s) && MapOnCourse(s) && Accounted(s)
  }

  // -------------------------------------------------------------------------
  // Runs with boot still going on
  // -------------------------------------------------------------------------

  datatype BootEvent =
    | Running(e: Event)
    | Registers(name: Name, cfg: ServerConfig, gate: Gate)

  predicate CanHappen(s: State, b: BootEvent) {
    b.Running? ==> Enabled(s, b.e)
  }

  function BootStep(s: State, b: BootEvent): State
    requires CanHappen(s, b)
  {
    match b
    case Running(e) => Step(s, e)
    case Registers(name, cfg, gate) => RegisterAtBoot(s, name, cfg, gate)
  }

  ghost predicate IsBootRun(states: seq<State>, events: seq<BootEvent>) {
    && |states| == |events| + 1
    && Initial(states[0])
    && forall i :: 0 <= i < |events| ==>
         CanHappen(states[i], events[i]) && states[i + 1] == BootStep(states[i], events[i])
  }

  // The entry is vacant, and the connection is one the commit check would accept,
  // or during a reload one that is still to be stopped or will fit; and a start
  // of a reload does not come upon an entry registered meanwhile.
  predicate Harmless(s: State, b: BootEvent) {
    match b
    case Registers(name, cfg, gate) =>
      var u := Upstream(s.nextId, cfg, gate);
      && name !in s.world.installed
      && if s.lock.ReloadHeld? then name in StillToStop(s.lock) || WillFit(s.lock, name, u)
         else CommitAccepts(s.world, name, cfg, u)
    case Running(e) => e.ReloadStart? && e.succeeds ==> e.name !in s.world.installed
  }

  // -------------------------------------------------------------------------
  // One step
  // -------------------------------------------------------------------------

  lemma ConfigStaysOnCourse(s: State, b: BootEvent)
    requires ConfigOnCourse(s) && CanHappen(s, b)
    ensures ConfigOnCourse(BootStep(s, b))
  {
    if b.Running? {
      if IsReloadEvent(b.e) {
        ReloadStepKeepsConfig(s, b.e);
      } else {
        ActorStepKeepsConfig(s, b.e);
      }
    }
  }

  lemma ReloadStepKeepsConfig(s: State, e: Event)
    requires ConfigOnCourse(s) && Enabled(s, e) && IsReloadEvent(e)
    ensures ConfigOnCourse(ReloadStep(s, e))
  {
  }

  lemma ActorStepKeepsConfig(s: State, e: Event)
    requires Enabled(s, e) && !IsReloadEvent(e)
    ensures var t := ActorStep(s, e);
            && t.world.config == s.world.config && t.world.gate == s.world.gate
            && (s.lock.ReloadHeld? ==> t.lock == s.lock && t.world == s.world)
            && (!s.lock.ReloadHeld? ==> !t.lock.ReloadHeld?)
  {
  }

  lemma ActorStepKeepsMap(s: State, e: Event)
    requires MapOnCourse(s) && Enabled(s, e) && !IsReloadEvent(e)
    ensures MapOnCourse(ActorStep(s, e))
  {
    ActorStepKeepsConfig(s, e);
    if e.FinishCommit? {
      CommitCheckIsExact(s.world, s.actors[e.a].name, s.actors[e.a].upstream);
    }
  }

  lemma AcquiringKeepsMap(s: State, new_: Config)
    requires ConfigOnCourse(s) && MapOnCourse(s) && s.lock.Free?
    ensures MapOnCourse(ReloadStep(s, ReloadAcquire(new_)))
  {
    var t := ReloadStep(s, ReloadAcquire(new_));
    forall name | name in s.world.installed
      ensures name in StillToStop(t.lock) || WillFit(t.lock, name, s.world.installed[name])
    {
      DiffPartitions(s.world.config, new_, name);
      assert Agrees(s.world, name, s.world.installed[name].config, s.world.installed[name].gate);
    }
  }

  lemma ReloadStepKeepsMap(s: State, e: Event)
    requires ConfigOnCourse(s) && MapOnCourse(s) && Enabled(s, e) && IsReloadEvent(e)
    ensures MapOnCourse(ReloadStep(s, e))
  {
    if e.ReloadAcquire? {
      AcquiringKeepsMap(s, e.new_);
    } else if e.ReloadStart? {
      StartingKeepsMap(s, e);
    } else if e.ReloadStop? {
      StoppingKeepsMap(s, e);
    } else if e.ReloadSetGate? || e.ReloadBeginStarts? {
      PlanningKeepsMap(s, e);
    } else {
      LeavingKeepsMap(s, e);
    }
  }

  lemma StartingKeepsMap(s: State, e: Event)
    requires ConfigOnCourse(s) && MapOnCourse(s) && Enabled(s, e) && e.ReloadStart?
    ensures MapOnCourse(ReloadStep(s, e))
  {
  }

  lemma StoppingKeepsMap(s: State, e: Event)
    requires MapOnCourse(s) && Enabled(s, e) && e.ReloadStop?
    ensures MapOnCourse(ReloadStep(s, e))
  {
  }

  lemma PlanningKeepsMap(s: State, e: Event)
    requires ConfigOnCourse(s) && MapOnCourse(s) && Enabled(s, e) && (e.ReloadSetGate? || e.ReloadBeginStarts?)
    ensures MapOnCourse(ReloadStep(s, e))
  {
  }

  lemma LeavingKeepsMap(s: State, e: Event)
    requires ConfigOnCourse(s) && MapOnCourse(s) && Enabled(s, e) && (e.ReloadSwap? || e.ReloadRelease?)
    ensures MapOnCourse(ReloadStep(s, e))
  {
  }

  lemma RunningKeepsBootInvExactly(s: State, e: Event)
    requires BootInv(s) && Enabled(s, e)
    ensures BootInv(Step(s, e)) <==> Harmless(s, Running(e))
  {
    ConfigStaysOnCourse(s, Running(e));
    if !Harmless(s, Running(e)) {
      ReloadStartLeaks(s, e.name);
    } else if IsReloadEvent(e) {
      ReloadStepKeepsMap(s, e);
      ReloadStepAccounted(s, e);
    } else {
      ActorStepKeepsMap(s, e);
      ActorStepAccounted(s, e);
    }
  }

  lemma RegisteringKeepsMapExactly(s: State, name: Name, cfg: ServerConfig, gate: Gate)
    requires MapOnCourse(s) && name !in s.world.installed
    ensures MapOnCourse(RegisterAtBoot(s, name, cfg, gate)) <==> Harmless(s, Registers(name, cfg, gate))
  {
    var t := RegisterAtBoot(s, name, cfg, gate);
    assert t.world.installed[name] == Upstream(s.nextId, cfg, gate);
    if !s.lock.ReloadHeld? {
      StartupRegistrationExactly(s.world, name, Upstream(s.nextId, cfg, gate));
    }
  }

  // A step keeps what a reload and boot together have to keep exactly when it is
  // harmless.
  lemma BootStepKeepsInvExactly(s: State, b: BootEvent)
    requires BootInv(s) && CanHappen(s, b)
    ensures BootInv(BootStep(s, b)) <==> Harmless(s, b)
  {
    match b
    case Running(e) => RunningKeepsBootInvExactly(s, e);
    case Registers(name, cfg, gate) =>
      ConfigStaysOnCourse(s, b);
      BootRegistrationLeaksExactly(s, name, cfg, gate);
      if name !in s.world.installed {
        RegisteringKeepsMapExactly(s, name, cfg, gate);
      }
  }

  // -------------------------------------------------------------------------
  // A connection that will not fit
  // -------------------------------------------------------------------------

  // Installed during a reload that will not stop it and that it does not fit.
  predicate Misfit(s: State, name: Name) {
    && s.lock.ReloadHeld? && name in s.world.installed && name !in StillToStop(s.lock)
    && !WillFit(s.lock, name, s.world.installed[name])
  }

  lemma MisfitOutlivesReloadStep(s: State, e: Event, name: Name)
    requires ConfigOnCourse(s) && Accounted(s) && Misfit(s, name) && Enabled(s, e) && IsReloadEvent(e)
    ensures Owed(ReloadStep(s, e)) ==> Misfit(ReloadStep(s, e), name)
  {
    if e == ReloadStart(name, true) {
      ReloadStartLeaks(s, name);
    } else if e.ReloadRelease? {
      MisfitIsNotCurrent(s, name);
    } else if e.ReloadStop? {
      assert name in s.world.installed - {e.name};
    }
  }

  lemma MisfitIsNotCurrent(s: State, name: Name)
    requires ConfigOnCourse(s) && Misfit(s, name) && s.lock.phase.Swapped?
    ensures !InstalledCurrent(s.world)
  {
    assert !Agrees(s.world, name, s.world.installed[name].config, s.world.installed[name].gate);
  }

  // Once there, it stays as long as nothing is lost, and the reload cannot end.
  lemma MisfitStays(s: State, b: BootEvent, name: Name)
    requires ConfigOnCourse(s) && Accounted(s) && Misfit(s, name) && CanHappen(s, b)
    requires Owed(BootStep(s, b))
    ensures Misfit(BootStep(s, b), name)
  {
    match b
    case Registers(other, cfg, gate) => BootRegistrationLeaksExactly(s, other, cfg, gate);
    case Running(e) =>
      if IsReloadEvent(e) {
        MisfitOutlivesReloadStep(s, e, name);
      } else {
        ActorStepKeepsConfig(s, e);
      }
  }

  lemma MisfitOneMore(states: seq<State>, events: seq<BootEvent>, name: Name, k: nat)
    requires IsBootRun(states, events) && k < |events| && Owed(states[k]) && Owed(states[k + 1])
    requires Misfit(states[k], name)
    ensures Misfit(states[k + 1], name)
  {
    ConfigOverRun(states, events, k);
    MisfitStays(states[k], events[k], name);
  }

  lemma {:induction false} MisfitIsForEver(states: seq<State>, name: Name, i: nat, j: nat)
    requires i <= j < |states| && Misfit(states[i], name)
    requires forall k, m :: i <= k < m < |states| && m == k + 1 && Misfit(states[k], name) ==> Misfit(states[m], name)
    ensures Misfit(states[j], name)
    decreases j - i
  {
    if i < j {
      MisfitIsForEver(states, name, i, j - 1);
    }
  }

  lemma {:induction false} ConfigOverRun(states: seq<State>, events: seq<BootEvent>, i: nat)
    requires IsBootRun(states, events) && i < |states|
    ensures ConfigOnCourse(states[i])
  {
    if i > 0 {
      ConfigOverRun(states, events, i - 1);
      ConfigStaysOnCourse(states[i - 1], events[i - 1]);
    }
  }

  // -------------------------------------------------------------------------
  // Whole runs
  // -------------------------------------------------------------------------

  lemma InitialHasBootInv(s: State)
    requires Initial(s)
    ensures BootInv(s)
  {
    assert HeldIds(s.actors) == {} && RetiredIds(s.retired) == {};
  }

  lemma {:induction false} BootInvWhileHarmless(states: seq<State>, events: seq<BootEvent>, i: nat)
    requires IsBootRun(states, events) && i < |states|
    requires forall k :: 0 <= k < i ==> Harmless(states[k], events[k])
    ensures BootInv(states[i])
  {
    if i == 0 {
      InitialHasBootInv(states[0]);
    } else {
      BootInvWhileHarmless(states, events, i - 1);
      BootStepKeepsInvExactly(states[i - 1], events[i - 1]);
    }
  }

  lemma HarmfulShows(s: State, b: BootEvent)
    requires BootInv(s) && CanHappen(s, b) && !Harmless(s, b) && Owed(BootStep(s, b))
    ensures b.Registers? && Misfit(BootStep(s, b), b.name)
  {
    match b
    case Running(e) => ReloadStartLeaks(s, e.name);
    case Registers(name, cfg, gate) =>
      BootRegistrationLeaksExactly(s, name, cfg, gate);
      RegisteringKeepsMapExactly(s, name, cfg, gate);
  }

  lemma MisfitToTheEnd(states: seq<State>, events: seq<BootEvent>, name: Name, i: nat)
    requires IsBootRun(states, events) && i < |states| && Misfit(states[i], name)
    requires forall k :: 0 <= k < |states| ==> Owed(states[k])
    ensures Misfit(states[|events|], name)
  {
    forall k, m | i <= k < m < |states| && m == k + 1 && Misfit(states[k], name)
      ensures Misfit(states[m], name)
    {
      MisfitOneMore(states, events, name, k);
    }
    MisfitIsForEver(states, name, i, |events|);
  }

  lemma {:induction false} OwedMeansHarmless(states: seq<State>, events: seq<BootEvent>, i: nat)
    requires IsBootRun(states, events) && i < |events| && !states[|events|].lock.ReloadHeld?
    requires forall k :: 0 <= k < |states| ==> Owed(states[k])
    ensures forall k :: 0 <= k <= i ==> Harmless(states[k], events[k])
  {
    if i > 0 {
      OwedMeansHarmless(states, events, i - 1);
    }
    BootInvWhileHarmless(states, events, i);
    if !Harmless(states[i], events[i]) {
      assert Owed(states[i + 1]);
      HarmfulShows(states[i], events[i]);
      MisfitToTheEnd(states, events, events[i].name, i + 1);
    }
  }

  // Over every run that starts before boot has settled and does not break off
  // inside a reload: no connection is ever lost and the installed ones are current
  // whenever no reload is under way, exactly when every registration is harmless
  // and no start of a reload comes upon one.
  lemma BootKeepsWhatIsOwedExactly(states: seq<State>, events: seq<BootEvent>)
    requires IsBootRun(states, events) && !states[|events|].lock.ReloadHeld?
    ensures (forall i :: 0 <= i < |states| ==> Owed(states[i]))
            <==> (forall i :: 0 <= i < |events| ==> Harmless(states[i], events[i]))
  {
    if (forall i :: 0 <= i < |states| ==> Owed(states[i])) && events != [] {
      OwedMeansHarmless(states, events, |events| - 1);
    }
    if forall i :: 0 <= i < |events| ==> Harmless(states[i], events[i]) {
      forall i | 0 <= i < |states| ensures Owed(states[i]) {
        BootInvWhileHarmless(states, events, i);
      }
    }
  }
}
