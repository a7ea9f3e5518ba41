/**
 The two operations that change which upstream connections are installed: committing a freshly
 dialled connection, and reloading the configuration. Both run under the reload lock.
 */
module EngineCore {
  import opened Common
  import opened Reload

  // One live connection: its identity, the configuration it was dialled with,
  // and the gate word it was dialled under.
  datatype Upstream = Upstream(id: nat, config: ServerConfig, gate: Gate)

  type Installed = map<Name, Upstream>

  datatype World = World(config: Config, gate: Gate, installed: Installed)

  // What a person expects of an installed connection: its server is configured,
  // the material fields are today's, and the protocol was negotiated under
  // today's gate unless the server never negotiates.
  predicate Agrees(w: World, name: Name, cfg: ServerConfig, gate: Gate) {
    && name in w.config.servers
    && w.config.servers[name].material == cfg.material
    && (cfg.material.protocolMode == Legacy || gate == w.gate)
  }

  predicate InstalledCurrent(w: World) {
    forall name :: name in w.installed ==> Agrees(w, name, w.installed[name].config, w.installed[name].gate)
  }

  // The gate's low bit is the setting in the configuration.
  predicate GateAgrees(w: World) {
    GateOpen(w.gate) == w.config.modernUpstream
  }

  predicate DistinctIds(installed: Installed) {
    forall a, b :: a in installed && b in installed && installed[a].id == installed[b].id ==> a == b
  }

  // Some server in `names` is installed with connection `id`.
  predicate IdAmong(installed: Installed, names: set<Name>, id: nat) {
    exists name :: name in names && name in installed && installed[name].id == id
  }

  // -------------------------------------------------------------------------
  // Commit
  // -------------------------------------------------------------------------

  predicate CommitAccepts(w: World, name: Name, connectedWith: ServerConfig, upstream: Upstream) {
    var protocolGateIsCurrent := IsLegacy(connectedWith) || upstream.gate == w.gate;
    && name in w.config.servers
    && !ServerConfigChanged(connectedWith, w.config.servers[name])
    && protocolGateIsCurrent
  }

  function Commit(w: World, name: Name, connectedWith: ServerConfig, upstream: Upstream): World {
    if CommitAccepts(w, name, connectedWith, upstream)
    then w.(installed := w.installed[name := upstream])
    else w
  }

  // Connections a commit takes out of use: the replaced one, or the refused one.
  function CommitRetires(w: World, name: Name, connectedWith: ServerConfig, upstream: Upstream): seq<nat> {
    if !CommitAccepts(w, name, connectedWith, upstream) then [upstream.id]
    else if name in w.installed then [w.installed[name].id]
    else []
  }

  // The commit check refuses exactly the installs that would break the agreement.
  lemma CommitCheckIsExact(w: World, name: Name, upstream: Upstream)
    requires InstalledCurrent(w)
    ensures CommitAccepts(w, name, upstream.config, upstream)
            <==> InstalledCurrent(w.(installed := w.installed[name := upstream]))
    ensures InstalledCurrent(Commit(w, name, upstream.config, upstream))
  {
    var direct := w.(installed := w.installed[name := upstream]);
    if InstalledCurrent(direct) {
      assert name in direct.installed;
    }
  }

  // -------------------------------------------------------------------------
  // Reload
  // -------------------------------------------------------------------------

  // `dials` holds the connection id of every start that succeeded.
  function StartedBy(new_: Config, gate: Gate, starts: set<Name>, dials: map<Name, nat>): Installed
    requires starts <= new_.servers.Keys
  {
    map name | name in starts && name in dials :: Upstream(dials[name], new_.servers[name], gate)
  }

  lemma StartsAreConfigured(old_: Config, new_: Config)
    ensures Starts(old_, new_) <= new_.servers.Keys
  {
  }

  lemma OneMoreStartedBy(base: Installed, new_: Config, gate: Gate, done: set<Name>, dials: map<Name, nat>, name: Name)
    requires done + {name} <= new_.servers.Keys
    ensures base + StartedBy(new_, gate, done + {name}, dials) ==
            var before := base + StartedBy(new_, gate, done, dials);
            if name in dials then before[name := Upstream(dials[name], new_.servers[name], gate)] else before
  {
  }

  function ReloadWorld(w: World, new_: Config, dials: map<Name, nat>): World {
    var gate := SetGate(w.gate, new_.modernUpstream);
    StartsAreConfigured(w.config, new_);
    World(new_, gate,
          (w.installed - Stops(w.config, new_)) + StartedBy(new_, gate, Starts(w.config, new_), dials))
  }

  lemma ReloadKeepsAgreement(w: World, new_: Config, dials: map<Name, nat>)
    requires InstalledCurrent(w) && GateAgrees(w)
    ensures InstalledCurrent(ReloadWorld(w, new_, dials)) && GateAgrees(ReloadWorld(w, new_, dials))
  {
    var r := ReloadWorld(w, new_, dials);
    forall name | name in r.installed
      ensures Agrees(r, name, r.installed[name].config, r.installed[name].gate)
    {
      DiffPartitions(w.config, new_, name);
      if name in w.installed && name !in Stops(w.config, new_) {
        assert Agrees(w, name, w.installed[name].config, w.installed[name].gate);
      }
    }
  }

  // The server's configuration is the same in all its material fields, and so is
  // the gate, unless the server never negotiates.
  predicate IsUnchanged(w: World, new_: Config, name: Name) {
    && name in w.config.servers && name in new_.servers
    && w.config.servers[name].material == new_.servers[name].material
    && (w.config.modernUpstream == new_.modernUpstream || new_.servers[name].material.protocolMode == Legacy)
  }

  // Which servers are up after a reload, from the two configurations and the dials
  // alone: those that were and are unchanged, on the connection they had, and those
  // that are on, are new or changed, and answered, on the connection dialled.
  lemma InstalledAfterReload(w: World, new_: Config, dials: map<Name, nat>, name: Name)
    requires InstalledCurrent(w) && GateAgrees(w)
    ensures var r := ReloadWorld(w, new_, dials);
            var kept := name in w.installed && IsUnchanged(w, new_, name);
            var started := name in new_.servers && new_.servers[name].material.enabled
                           && !IsUnchanged(w, new_, name) && name in dials;
            && r.config == new_ && (GateOpen(r.gate) <==> new_.modernUpstream)
            && (name in r.installed <==> kept || started)
            && (kept ==> r.installed[name] == w.installed[name])
            && (started ==> r.installed[name] == Upstream(dials[name], new_.servers[name], r.gate))
  {
    ReloadedServers(w, new_, dials);
    if name in w.installed {
      assert Agrees(w, name, w.installed[name].config, w.installed[name].gate);
    }
  }

  // -------------------------------------------------------------------------
  // Either order of a pending commit and a reload
  // -------------------------------------------------------------------------

  function Materials(installed: Installed): map<Name, Material> {
    map name | name in installed :: installed[name].config.material
  }

  // The reload restarts or adds the server but has no live connection of its
  // own to show for it, and the pending connection fits the new configuration.
  predicate OnlyPendingIsLive(w: World, new_: Config, dials: map<Name, nat>, name: Name, upstream: Upstream) {
    && name in Changed(w.config, new_) + Added(w.config, new_)
    && !(name in Starts(w.config, new_) && name in dials)
    && CommitAccepts(ReloadWorld(w, new_, dials), name, upstream.config, upstream)
  }

  lemma SameServersSameMaterials(a: World, b: World)
    requires InstalledCurrent(a) && InstalledCurrent(b) && a.config == b.config
    ensures Materials(a.installed) == Materials(b.installed) <==> a.installed.Keys == b.installed.Keys
  {
    assert Materials(a.installed).Keys == a.installed.Keys;
    assert Materials(b.installed).Keys == b.installed.Keys;
    forall name | name in a.installed && name in b.installed
      ensures Materials(a.installed)[name] == Materials(b.installed)[name]
    {
      assert Agrees(a, name, a.installed[name].config, a.installed[name].gate);
      assert Agrees(b, name, b.installed[name].config, b.installed[name].gate);
    }
  }

  lemma ReloadedServers(w: World, new_: Config, dials: map<Name, nat>)
    ensures ReloadWorld(w, new_, dials).installed.Keys
         == (w.installed.Keys - Stops(w.config, new_)) + (Starts(w.config, new_) * dials.Keys)
  {
  }

  // For a server the reload leaves alone, the commit check gives the same
  // answer before and after.
  lemma UntouchedServerSameVerdict(w: World, new_: Config, dials: map<Name, nat>, name: Name, upstream: Upstream)
    requires GateAgrees(w)
    requires name in w.config.servers && name !in Stops(w.config, new_)
    ensures CommitAccepts(w, name, upstream.config, upstream)
            <==> CommitAccepts(ReloadWorld(w, new_, dials), name, upstream.config, upstream)
  {
    DiffPartitions(w.config, new_, name);
  }

  lemma OtherServersSamePresence(
    w: World, new_: Config, dials: map<Name, nat>, name: Name, upstream: Upstream, other: Name)
    requires other != name
    ensures other in ReloadWorld(Commit(w, name, upstream.config, upstream), new_, dials).installed
       <==> other in Commit(ReloadWorld(w, new_, dials), name, upstream.config, upstream).installed
  {
    ReloadedServers(w, new_, dials);
    ReloadedServers(Commit(w, name, upstream.config, upstream), new_, dials);
  }

  lemma PendingServerPresence(w: World, new_: Config, dials: map<Name, nat>, name: Name, upstream: Upstream)
    requires InstalledCurrent(w) && GateAgrees(w)
    ensures var commitFirst := ReloadWorld(Commit(w, name, upstream.config, upstream), new_, dials);
            var reloadFirst := Commit(ReloadWorld(w, new_, dials), name, upstream.config, upstream);
            ((name in commitFirst.installed <==> name in reloadFirst.installed)
             <==> !OnlyPendingIsLive(w, new_, dials, name, upstream))
  {
    ReloadedServers(w, new_, dials);
    ReloadedServers(Commit(w, name, upstream.config, upstream), new_, dials);
    DiffPartitions(w.config, new_, name);
    if name in w.config.servers && name !in Stops(w.config, new_) {
      UntouchedServerSameVerdict(w, new_, dials, name, upstream);
    } else if name !in new_.servers {
      assert !CommitAccepts(ReloadWorld(w, new_, dials), name, upstream.config, upstream);
      assert name in w.installed ==> Agrees(w, name, w.installed[name].config, w.installed[name].gate);
    } else {
      assert name in Changed(w.config, new_) + Added(w.config, new_);
      assert name in w.installed ==> Agrees(w, name, w.installed[name].config, w.installed[name].gate);
    }
  }

  lemma KeysDifferOnlyAt(a: Installed, b: Installed, name: Name)
    requires forall other :: other != name ==> (other in a <==> other in b)
    ensures a.Keys == b.Keys <==> (name in a <==> name in b)
  {
  }

  lemma SameServersExactly(w: World, new_: Config, dials: map<Name, nat>, name: Name, upstream: Upstream)
    requires InstalledCurrent(w) && GateAgrees(w)
    ensures var commitFirst := ReloadWorld(Commit(w, name, upstream.config, upstream), new_, dials);
            var reloadFirst := Commit(ReloadWorld(w, new_, dials), name, upstream.config, upstream);
            (commitFirst.installed.Keys == reloadFirst.installed.Keys
             <==> !OnlyPendingIsLive(w, new_, dials, name, upstream))
  {
    var a := ReloadWorld(Commit(w, name, upstream.config, upstream), new_, dials);
    var b := Commit(ReloadWorld(w, new_, dials), name, upstream.config, upstream);
    forall other | other != name ensures other in a.installed <==> other in b.installed {
      OtherServersSamePresence(w, new_, dials, name, upstream, other);
    }
    PendingServerPresence(w, new_, dials, name, upstream);
    KeysDifferOnlyAt(a.installed, b.installed, name);
  }

  // The lock order shows in the installed material configuration exactly when
  // the reload failed to start a server that the pending connection could have
  // served; then committing last keeps it up and committing first does not.
  lemma CommitAndReloadCommute(w: World, new_: Config, dials: map<Name, nat>, name: Name, upstream: Upstream)
    requires InstalledCurrent(w) && GateAgrees(w)
    ensures var commitFirst := ReloadWorld(Commit(w, name, upstream.config, upstream), new_, dials);
            var reloadFirst := Commit(ReloadWorld(w, new_, dials), name, upstream.config, upstream);
            (Materials(commitFirst.installed) == Materials(reloadFirst.installed)
             <==> !OnlyPendingIsLive(w, new_, dials, name, upstream))
  {
    var a := ReloadWorld(Commit(w, name, upstream.config, upstream), new_, dials);
    var b := Commit(ReloadWorld(w, new_, dials), name, upstream.config, upstream);
    BothOrdersKeepAgreement(w, new_, dials, name, upstream);
    SameServersSameMaterials(a, b);
    SameServersExactly(w, new_, dials, name, upstream);
  }

  lemma BothOrdersKeepAgreement(w: World, new_: Config, dials: map<Name, nat>, name: Name, upstream: Upstream)
    requires InstalledCurrent(w) && GateAgrees(w)
    ensures InstalledCurrent(ReloadWorld(Commit(w, name, upstream.config, upstream), new_, dials))
    ensures InstalledCurrent(Commit(ReloadWorld(w, new_, dials), name, upstream.config, upstream))
  {
    CommitCheckIsExact(w, name, upstream);
    ReloadKeepsAgreement(Commit(w, name, upstream.config, upstream), new_, dials);
    ReloadKeepsAgreement(w, new_, dials);
    CommitCheckIsExact(ReloadWorld(w, new_, dials), name, upstream);
  }

  // The exception is real. A connection dialled with one configuration is pending
  // when the server has another; a reload goes back to the first and its own dial
  // fails. Committed after the reload the connection is installed, before it the
  // server is left down.
  lemma LockOrderCanShow(name: Name, first: ServerConfig, second: ServerConfig, gate: Gate, id: nat)
    requires first.material != second.material && first.material.enabled && !GateOpen(gate)
    ensures var w := World(Config(map[name := second], false), gate, map[]);
            var new_ := Config(map[name := first], false);
            var pending := Upstream(id, first, gate);
            && InstalledCurrent(w) && GateAgrees(w) && OnlyPendingIsLive(w, new_, map[], name, pending)
            && name in Commit(ReloadWorld(w, new_, map[]), name, first, pending).installed
            && name !in ReloadWorld(Commit(w, name, first, pending), new_, map[]).installed
  {
    var w, new_ := World(Config(map[name := second], false), gate, map[]), Config(map[name := first], false);
    var pending := Upstream(id, first, gate);
    assert name in Changed(w.config, new_);
    assert !CommitAccepts(w, name, first, pending);
    ReloadedServers(w, new_, map[]);
  }

  // A connection dialled from the configuration the reload replaces, under the
  // gate it replaces, gives the same outcome in either order, whatever the
  // reload's own dials do.
  lemma FreshPendingCommitCommutes(w: World, new_: Config, dials: map<Name, nat>, name: Name, upstream: Upstream)
    requires InstalledCurrent(w) && GateAgrees(w)
    requires CommitAccepts(w, name, upstream.config, upstream)
    ensures Materials(ReloadWorld(Commit(w, name, upstream.config, upstream), new_, dials).installed)
         == Materials(Commit(ReloadWorld(w, new_, dials), name, upstream.config, upstream).installed)
  {
    CommitAndReloadCommute(w, new_, dials, name, upstream);
  }

  // -------------------------------------------------------------------------
  // Startup registration
  // -------------------------------------------------------------------------

  // A server started at boot is put in the map without the lock and without the commit check.
  function RegisterStarted(w: World, name: Name, upstream: Upstream): World {
    w.(installed := w.installed[name := upstream])
  }

  // A boot-time start that settles after a reload keeps the agreement exactly
  // when the commit check it skips would have let it in.
  lemma StartupRegistrationExactly(w: World, name: Name, upstream: Upstream)
    requires InstalledCurrent(w)
    ensures InstalledCurrent(RegisterStarted(w, name, upstream))
            <==> CommitAccepts(w, name, upstream.config, upstream)
  {
    CommitCheckIsExact(w, name, upstream);
  }

  // Boot dials a server, a reload removes it, the boot start settles: the
  // removed server is back in the map.
  lemma StartupCanResurrect(name: Name, cfg: ServerConfig, id: nat, gate: Gate)
    requires cfg.material.enabled && !GateOpen(gate)
    ensures var before := World(Config(map[name := cfg], false), gate, map[]);
            var reloaded := ReloadWorld(before, Config(map[], false), map[]);
            var settled := RegisterStarted(reloaded, name, Upstream(id, cfg, gate));
            && InstalledCurrent(before) && GateAgrees(before)
            && name !in reloaded.installed
            && name in settled.installed && name !in settled.config.servers
            && !InstalledCurrent(settled)
  {
    var reloaded := ReloadWorld(World(Config(map[name := cfg], false), gate, map[]), Config(map[], false), map[]);
    assert reloaded.config.servers == map[];
    assert name !in Starts(Config(map[name := cfg], false), Config(map[], false));
    StartupRegistrationExactly(reloaded, name, Upstream(id, cfg, gate));
  }

  // -------------------------------------------------------------------------
  // The running engine
  // -------------------------------------------------------------------------

  class Engine {
    var config: Config
    var gate: Gate
    var installed: Installed
    var retired: seq<nat>  // connection ids taken out of use, in order

    ghost function W(): World
      reads this
    {
      World(config, gate, installed)
    }

    constructor (initial: Config)
      ensures W() == World(initial, 0, map[]) && retired == []
    {
      config, gate, installed, retired := initial, 0, map[], [];
    }

    method SetModernUpstreamEnabled(enabled: bool)
      modifies this`gate
      ensures gate == SetGate(old(gate), enabled)
    {
      var current := gate;
      if GateOpen(current) != enabled {
        gate := Flip(current);
      }
    }

    method StopServer(name: Name)
      modifies this`installed, this`retired
      ensures installed == old(installed) - {name}
      ensures retired == if name in old(installed) then old(retired) + [old(installed)[name].id] else old(retired)
    {
      if name in installed {
        retired := retired + [installed[name].id];
      }
      installed := installed - {name};
    }

    // Put the new connection in the map and take the one it replaces out of use.
    method ReplaceServer(name: Name, upstream: Upstream)
      modifies this`installed, this`retired
      ensures installed == old(installed)[name := upstream]
      ensures retired == if name in old(installed) then old(retired) + [old(installed)[name].id] else old(retired)
    {
      var previous := if name in installed then Some(installed[name]) else None;
      installed := installed[name := upstream];
      if previous.Some? {
        retired := retired + [previous.value.id];
      }
    }

    method CommitReplacement(name: Name, connectedWith: ServerConfig, upstream: Upstream) returns (committed: bool)
      modifies this
      ensures committed == CommitAccepts(old(W()), name, connectedWith, upstream)
      ensures W() == Commit(old(W()), name, connectedWith, upstream)
      ensures retired == old(retired) + CommitRetires(old(W()), name, connectedWith, upstream)
      ensures upstream.config == connectedWith && old(InstalledCurrent(W())) ==> InstalledCurrent(W())
    {
      ghost var before := W();
      var protocolGateIsCurrent := IsLegacy(connectedWith) || upstream.gate == gate;
      if name in config.servers && !ServerConfigChanged(connectedWith, config.servers[name]) && protocolGateIsCurrent {
        ReplaceServer(name, upstream);
        committed := true;
      } else {
        retired := retired + [upstream.id];
        committed := false;
      }
      if upstream.config == connectedWith && InstalledCurrent(before) {
        CommitCheckIsExact(before, name, upstream);
      }
    }

    // Stop every server in `names`, in any order.
    method StopServers(names: set<Name>)
      modifies this`installed, this`retired
      ensures installed == old(installed) - names
      ensures forall id :: id in retired <==> (id in old(retired) || IdAmong(old(installed), names, id))
      ensures DistinctIds(old(installed)) && NoDuplicates(old(retired))
              && (forall name :: name in old(installed) ==> old(installed)[name].id !in old(retired))
              ==> NoDuplicates(retired)
    {
      var rest := names;
      ghost var was, gone := installed, retired;
      while rest != {}
        invariant rest <= names
        invariant installed == was - (names - rest)
        invariant forall id :: id in retired <==> (id in gone || IdAmong(was, names - rest, id))
        invariant DistinctIds(was) && NoDuplicates(gone) && (forall name :: name in was ==> was[name].id !in gone)
                  ==> NoDuplicates(retired)
        decreases rest
      {
        var name :| name in rest;
        ghost var before := retired;
        StopServer(name);
        assert names - (rest - {name}) == (names - rest) + {name};
        assert name in was ==> was[name].id in retired;
        rest := rest - {name};
      }
    }

    // Dial and register every server in `names`; `dials` says which dials succeed.
    method StartServers(names: set<Name>, new_: Config, dials: map<Name, nat>)
      requires names <= new_.servers.Keys
      modifies this`installed
      ensures installed == old(installed) + StartedBy(new_, gate, names, dials)
    {
      var rest := names;
      ghost var was := installed;
      while rest != {}
        invariant rest <= names
        invariant installed == was + StartedBy(new_, gate, names - rest, dials)
        decreases rest
      {
        var name :| name in rest;
        OneMoreStartedBy(was, new_, gate, names - rest, dials, name);
        assert names - (rest - {name}) == (names - rest) + {name};
        if name in dials {
          installed := installed[name := Upstream(dials[name], new_.servers[name], gate)];
        }
        rest := rest - {name};
      }
    }

    method ApplyReload(new_: Config, dials: map<Name, nat>)
      modifies this
      ensures W() == ReloadWorld(old(W()), new_, dials)
      ensures forall id :: id in retired
                <==> (id in old(retired) || IdAmong(old(installed), Stops(old(config), new_), id))
      ensures DistinctIds(old(installed)) && NoDuplicates(old(retired))
              && (forall name :: name in old(installed) ==> old(installed)[name].id !in old(retired))
              ==> NoDuplicates(retired)
      ensures old(InstalledCurrent(W()) && GateAgrees(W())) ==> InstalledCurrent(W()) && GateAgrees(W())
      ensures old(InstalledCurrent(W()) && GateAgrees(W())) ==>
                forall name :: name in installed <==>
                  || (name in old(installed) && IsUnchanged(old(W()), new_, name))
                  || (name in new_.servers && new_.servers[name].material.enabled
                      && !IsUnchanged(old(W()), new_, name) && name in dials)
    {
      ghost var before := W();
      var stops, starts := Stops(config, new_), Starts(config, new_);
      SetModernUpstreamEnabled(new_.modernUpstream);
      StopServers(stops);
      StartServers(starts, new_, dials);
      SetModernUpstreamEnabled(new_.modernUpstream);
      config := new_;
      if InstalledCurrent(before) && GateAgrees(before) {
        ReloadKeepsAgreement(before, new_, dials);
        forall name
          ensures name in installed <==>
                    || (name in before.installed && IsUnchanged(before, new_, name))
                    || (name in new_.servers && new_.servers[name].material.enabled
                        && !IsUnchanged(before, new_, name) && name in dials)
        {
          InstalledAfterReload(before, new_, dials, name);
        }
      }
    }
  }
}
