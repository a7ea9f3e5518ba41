/** Which servers a configuration reload stops and starts, and what counts as a material change. */
module Reload {
  import opened Common

  type Name = string

  datatype ProtocolMode = Legacy | Auto | Modern

  // The fields a reload compares.
  datatype Material = Material(
    command: Option<string>,
    args: seq<string>,
    env: map<string, string>,
    enabled: bool,
    transport: Transport,
    protocolMode: ProtocolMode,
    url: Option<string>,
    authToken: Option<string>,
    auth: Option<string>,
    oauthClientId: Option<string>,
    oauthScopes: Option<seq<string>>,
    timeoutSecs: nat,
    callTimeoutSecs: nat,
    healthCheckIntervalSecs: nat,
    spec: Option<string>,
    operations: seq<string>,
    tokenIn: Option<string>)

  // The fields a reload leaves out of the comparison.
  datatype Tuning = Tuning(
    maxConcurrent: nat,
    circuitBreakerEnabled: bool,
    enrichment: bool,
    toolRenames: map<string, string>,
    toolGroups: seq<string>,
    sandbox: Option<string>)

  datatype ServerConfig = ServerConfig(material: Material, tuning: Tuning)

  datatype Config = Config(servers: map<Name, ServerConfig>, modernUpstream: bool)

  // The comparison is written field by field; it comes out as inequality of
  // the material parts, whatever the tuning parts hold.
  predicate ServerConfigChanged(old_: ServerConfig, new_: ServerConfig): (changed: bool)
    ensures changed <==> old_.material != new_.material
  {
    var a, b := old_.material, new_.material;
    || a.command != b.command
    || a.args != b.args
    || a.env != b.env
    || a.transport != b.transport
    || a.protocolMode != b.protocolMode
    || a.url != b.url
    || a.timeoutSecs != b.timeoutSecs
    || a.callTimeoutSecs != b.callTimeoutSecs
    || a.enabled != b.enabled
    || a.authToken != b.authToken
    || a.auth != b.auth
    || a.oauthClientId != b.oauthClientId
    || a.oauthScopes != b.oauthScopes
    || a.healthCheckIntervalSecs != b.healthCheckIntervalSecs
    || a.spec != b.spec
    || a.operations != b.operations
    || a.tokenIn != b.tokenIn
  }

  predicate IsLegacy(cfg: ServerConfig) {
    cfg.material.protocolMode == Legacy
  }

  function Removed(old_: Config, new_: Config): set<Name> {
    old_.servers.Keys - new_.servers.Keys
  }

  function Added(old_: Config, new_: Config): set<Name> {
    new_.servers.Keys - old_.servers.Keys
  }

  predicate NeedsRestart(old_: Config, new_: Config, name: Name)
    requires name in old_.servers && name in new_.servers
  {
    var o, n := old_.servers[name], new_.servers[name];
    || ServerConfigChanged(o, n)
    || (old_.modernUpstream != new_.modernUpstream && (!IsLegacy(o) || !IsLegacy(n)))
  }

  function Changed(old_: Config, new_: Config): set<Name> {
    set name | name in old_.servers && name in new_.servers && NeedsRestart(old_, new_, name)
  }

  // Stopped before anything new is started.
  function Stops(old_: Config, new_: Config): set<Name> {
    Removed(old_, new_) + Changed(old_, new_)
  }

  // Changed and added servers that are on.
  function Starts(old_: Config, new_: Config): set<Name> {
    set name | name in Changed(old_, new_) + Added(old_, new_) && new_.servers[name].material.enabled
  }

  // The three parts of the difference and the untouched servers split the two
  // name sets, so a server is never both left alone and started.
  lemma DiffPartitions(old_: Config, new_: Config, name: Name)
    ensures name in Stops(old_, new_) ==> name in old_.servers
    ensures name in Starts(old_, new_) ==> name in new_.servers
    ensures name in Starts(old_, new_) && name in old_.servers ==> name in Stops(old_, new_)
    ensures name in old_.servers && name !in Stops(old_, new_) ==>
              name in new_.servers && name !in Starts(old_, new_) && !NeedsRestart(old_, new_, name)
  {
  }

  // -------------------------------------------------------------------------
  // The protocol gate: a 64-bit word whose low bit says whether modern
  // negotiation is on and whose other bits count the flips.
  // -------------------------------------------------------------------------

  type Gate = g: nat | g < U64_MODULUS

  predicate GateOpen(g: Gate) {
    g % 2 == 1
  }

  // `wrapping_add(2) ^ 1`.
  function Flip(g: Gate): (f: Gate)
    ensures GateOpen(f) != GateOpen(g)
  {
    var next := (g + 2) % U64_MODULUS;
    if next % 2 == 0 then next + 1 else next - 1
  }

  function SetGate(g: Gate, enabled: bool): (r: Gate)
    ensures GateOpen(r) == enabled
    ensures (r == g) == (GateOpen(g) == enabled)
  {
    if GateOpen(g) == enabled then g else Flip(g)
  }

  function FlipTimes(g: Gate, k: nat): Gate {
    if k == 0 then g else Flip(FlipTimes(g, k - 1))
  }

  lemma FlipCounts(g: Gate)
    ensures Flip(g) / 2 == if g / 2 + 1 == U64_MODULUS / 2 then 0 else g / 2 + 1
  {
    if g + 2 < U64_MODULUS {
      assert (g + 2) % U64_MODULUS == g + 2;
    } else {
      assert (g + 2) % U64_MODULUS == g + 2 - U64_MODULUS;
    }
  }

  lemma {:induction false} FlipTimesClosedForm(g: Gate, k: nat)
    requires k < U64_MODULUS / 2
    ensures FlipTimes(g, k) / 2 ==
            if g / 2 + k < U64_MODULUS / 2 then g / 2 + k else g / 2 + k - U64_MODULUS / 2
  {
    if k > 0 {
      FlipTimesClosedForm(g, k - 1);
      FlipCounts(FlipTimes(g, k - 1));
    }
  }

  // A connection's gate word is the current one exactly when no flip happened
  // since, for any number of flips short of a full turn of the counter.
  lemma FlipsAreTold(g: Gate, k: nat)
    requires k < U64_MODULUS / 2
    ensures FlipTimes(g, k) == g <==> k == 0
  {
    FlipTimesClosedForm(g, k);
  }
}
