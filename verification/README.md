# plug: a verified model of the runtime

plug is a multiplexer for MCP servers. It keeps upstream connections alive while the configuration
is reloaded underneath them, protects them with circuit breakers, supervises and recovers the ones
that fail, keeps large results on disk, keeps typed credentials in a secret store, and imports
servers from the configuration files of other clients. This project models those parts of
`plug-core` in Dafny and proves what they keep, over every input and every run. Run
`dafny verify dfyconfig.toml` to check all of it.

## How it is laid out

| file | what it models |
|---|---|
| `Common.dfy` | options, saturating 64-bit arithmetic, powers of two, positions in a sequence |
| `Reload.dfy` | the configuration diff, material and tuning fields, the protocol gate word |
| `EngineCore.dfy` | commit, reload and boot registration on one world; the running engine |
| `EngineProtocol.dfy` | reloads, restarts and reconnects interleaved step by step |
| `EngineTasks.dfy` | one restart or reconnect with nothing else going on |
| `EngineBoot.dfy` | the interleaved tasks with boot registrations still coming in |
| `Circuit.dfy` | the circuit breaker with each method one step; the running breaker |
| `CircuitReplies.dfy` | what that breaker answers, read off the history |
| `CircuitSteps.dfy` | the circuit breaker with each atomic operation one step |
| `CircuitTiming.dfy` | how long an open breaker stays open when those steps overlap |
| `Supervision.dfy` | supervised restarts and their backoff |
| `Recovery.dfy` | the recovery episode, its backoff, and the retries inside one reconnect |
| `RefreshLoop.dfy` | the OAuth refresh loop |
| `SecretKeeping.dfy` | one operator change with its credentials kept in a store, and its rollback |
| `ArtifactStore.dfy` | the artifact index and directories under expiry, size eviction and restart |
| `ArtifactAccess.dfy` | artifact URIs, chunked reads, metadata on disk |
| `TomlReader.dfy` | a line-by-line reader of configuration files in TOML v1.0.0 |
| `TomlText.dfy`, `TomlPrinter.dfy`, `ImportedServers.dfy` | the printer of imported servers and what a reader makes of its text |
| `HeaderKeys.dfy` | what a header makes of a name printed in it as it is |
| `BrokenLines.dfy` | printed lines a reader refuses: names that make no key, values with control characters |
| `ConfigImport.dfy` | signatures, deduplication and counts |
| `SecondImport.dfy` | the configuration loaded again after an import, and what a second import finds |
| `PlugUnlink.dfy` | taking plug's own section out of another client's file |
| `Activity.dfy` | the activity ring, snapshots, pollers |
| `ActivityPolling.dfy` | a poller while events are stamped and appended in two steps |

Code that changes state in place is modelled by classes and loops, each proved equal to a function
of the old state; the lemmas are about that function. Interleavings are sequentially consistent.

## Where the code does less than it says

Each of these is shown by a lemma that gives the run or the input; the lemma after it says exactly
when the code does keep the property.

- The drain loop of the circuit breaker drops each permit it acquires, so it changes nothing and,
  run alone, ends only when no permit was left; with any threshold, a window whose first probe fails
  makes the next transition spin. Its comment says that it consumes them
  (`Circuit.UnspentProbesMakeNextWindowSpin`; `Circuit.DrainsDifferOnlyOnLeftovers`).
- A success or a reset stores "not set" over the opening time after it has published the new state. A
  failure in between leaves the breaker open with no opening time, and then it rejects every call
  until it is reset (`CircuitSteps.LateStoresStrandTheBreaker`; `CircuitSteps.OpenAlwaysHasTimeExactly`).
- An open breaker can let a call try before its open duration is over, in two ways. A call can load
  a time earlier than the last opening: a failed probe publishes the open state before the new
  opening time (`CircuitTiming.OpenCanLastNoTime`), and one that is overtaken after it read the clock
  puts an earlier time back over a later one (`CircuitTiming.StoredTimeCanGoBack`;
  `CircuitTiming.TimeIsCurrentExactly` says when the stored time is behind). Or a call that has
  passed its check waits at the exchange while the breaker is tried, fails and opens again
  (`CircuitTiming.WaitingCallCutsOpenShort`). There is no third way (`CircuitTiming.CheckHoldsExactly`).
- A server started at boot is registered without the commit check, so one that a reload removed in
  the meantime comes back (`EngineCore.StartupCanResurrect`; `EngineCore.StartupRegistrationExactly`).
  The connection it overwrites is dropped without being retired
  (`EngineBoot.BootRegistrationLeaksExactly`; `EngineBoot.BootKeepsWhatIsOwedExactly` for whole runs).
- The order in which a pending commit and a reload get the lock can show in the end, though the
  comment on the commit calls the reverse order benign (`EngineCore.LockOrderCanShow`;
  `EngineCore.CommitAndReloadCommute`).
- A reconnect does not look at whether the server is on, so one under way while a server is turned
  off starts it again (`EngineProtocol.ReconnectCanStartServerThatIsOff`;
  `EngineProtocol.CommitKeepsOffServersDown`).
- A suffixed name is not checked to be free, and one collision makes the whole file unreadable
  (`ImportedServers.SuffixCanCollide`). Names are printed as they are and compared as they are, but a
  header passes over space and takes off quotes, so two free names can come to one key
  (`ImportedServers.SpacesHideCollisions`); a name that makes no key, or a value with a control
  character, makes the file unreadable too (`ImportedServers.AppendedFileReads`, which is exact), and
  a dotted name defines a table of another server (`ImportedServers.DottedNameIsAnother`).
- An imported server with no command or address, or with the prefix delimiter in its name, makes
  validation refuse the whole file. The next import then starts from no servers at all and finds
  everything again; accepted, it prints names the file already has, and the file can no longer be
  read (`SecondImport.AcceptingItBreaksTheFile`; `SecondImport.NewFileLoadsExactly`). A server whose
  command, arguments or address hold a variable reference is found again because its signature is
  compared after expansion (`SecondImport.OneServerIsFoundAgain`; `SecondImport.SecondImportFinds`).
- The signature joins arguments with spaces, so different commands can be merged
  (`ConfigImport.SpacesHideArguments`; `ConfigImport.SameSignatureExactly`).
- Removing plug's section removes a following section whose name begins with "plug"
  (`PlugUnlink.LongerNameGoesToo`; `PlugUnlink.OnlyOwnLinesGoExactly`), and doing it twice is not the
  same as doing it once when the text ends in blank lines (`PlugUnlink.BlankLinesKeepGoing`;
  `PlugUnlink.UnlinkedAgainExactly`).
- Two events recorded at once can be appended in the wrong order, and a poller then misses one
  (`Activity.OvertakenEventIsMissed`) or reads one twice (`ActivityPolling.OvertakingEventIsReadTwice`;
  `ActivityPolling.PollerReadsEachOnceExactly`).

## Model

| member | source | states |
|---|---|---|
| Reload.ServerConfigChanged | plug-core/src/reload.rs:224-242 | the seventeen comparisons together say exactly that the material parts differ, whatever the tuning parts hold |
| Reload.DiffPartitions | plug-core/src/reload.rs:74-124 | what a reload stops was configured, what it starts is configured now and was stopped first, and a server it leaves alone needs no restart |
| Reload.Flip | plug-core/src/server/mod.rs:1377 | the wrapped word always has the other low bit |
| Reload.SetGate | plug-core/src/server/mod.rs:1370-1388 | the gate ends up as asked, and the word changes exactly when the setting does |
| Reload.FlipTimesClosedForm | plug-core/src/server/mod.rs:1370-1388 | after k flips the counter part is k further on, with the wrap written out |
| Reload.FlipsAreTold | plug-core/src/server/mod.rs:1370-1392 | for any number of flips short of a full turn, a word equals the current one exactly when no flip happened in between |
| EngineCore.CommitCheckIsExact | plug-core/src/engine.rs:530-557 | the commit check refuses exactly the installs that would leave a connection whose server, material fields or gate are not today's |
| EngineCore.ReloadKeepsAgreement | plug-core/src/reload.rs:254-364 | a reload leaves every installed connection current, whichever of its dials succeed |
| EngineCore.InstalledAfterReload | plug-core/src/reload.rs:82-124 | which servers are up after a reload and on which connection, from the two configurations and the dials alone: the unchanged ones that were up, on the connection they had, and the new or changed ones that are on and answered, on the one dialled |
| EngineCore.CommitAndReloadCommute | plug-core/src/engine.rs:492-557 | either lock order of a pending commit and a reload gives the same installed material configuration, except exactly when only the pending connection can serve a server the reload failed to start |
| EngineCore.LockOrderCanShow | plug-core/src/engine.rs:519-523 | the exception happens: with one dialled configuration, one current and a reload back whose own dial fails, the connection is installed in one order and the server is down in the other |
| EngineCore.FreshPendingCommitCommutes | plug-core/src/engine.rs:519-523 | a connection dialled from today's configuration gives the same outcome in either order |
| EngineCore.StartupRegistrationExactly | plug-core/src/server/mod.rs:2682-2689 | a boot registration keeps the agreement exactly when the commit check it skips would have accepted it |
| EngineCore.StartupCanResurrect | plug-core/src/server/mod.rs:1606-1636 | boot dial, removing reload, late registration: the removed server is back |
| EngineCore.Engine.CommitReplacement | plug-core/src/engine.rs:524-557 | the new map, what is taken out of use, the outcome, and that the agreement is kept |
| EngineCore.Engine.ReplaceServer | plug-core/src/server/mod.rs:2785-2818 | the new connection is the entry and the one it replaces is taken out of use once |
| EngineCore.Engine.StopServer | plug-core/src/server/mod.rs:2756-2773 | the entry goes and its connection is taken out of use once |
| EngineCore.Engine.StopServers | plug-core/src/reload.rs:278-294 | in any order the stop loops take out exactly the named servers, retiring each of their connections once |
| EngineCore.Engine.StartServers | plug-core/src/reload.rs:296-303 | in any order the start batch installs exactly the successful dials of the named servers |
| EngineCore.Engine.ApplyReload | plug-core/src/reload.rs:254-364 | the stepwise reload reaches the closed form and keeps the agreement, retiring each stopped connection once; a server is up afterwards exactly when it was and is unchanged in material fields and gate, or is on, new or changed, and its dial succeeded |
| EngineCore.Engine.SetModernUpstreamEnabled | plug-core/src/server/mod.rs:1370-1388 | the gate word becomes the one that agrees with the setting |
| EngineProtocol.InvStep | plug-core/src/engine.rs:524-772 | every step of every task keeps the three invariants |
| EngineProtocol.InstalledAlwaysCurrent | plug-core/src/engine.rs:492-557 | in every interleaving, whenever the lock is free each installed connection is the configured server's, current on every material field and dialled under today's gate; no removed server is installed |
| EngineProtocol.NoConnectionLeaksOrIsRetiredTwice | plug-core/src/engine.rs:535-555 | over every run each connection ever opened is installed, in the hands of its task or retired: exactly one of these, and retired at most once |
| EngineProtocol.RetirementIsFinal | plug-core/src/engine.rs:535-555 | a retired connection stays retired and is never installed again |
| EngineProtocol.OneStartPerServer | plug-core/src/engine.rs:673-684 | restart and reconnect tasks of one server never dial, hold or commit at the same time |
| EngineProtocol.ReloadReachesClosedForm | plug-core/src/reload.rs:254-364 | a reload interleaved with other tasks ends in the same world as one run alone |
| EngineProtocol.ReloadInstallsExactly | plug-core/src/reload.rs:254-364 | the same of a reload interleaved with other tasks, from the moment it took the lock and the dials answered since |
| EngineProtocol.CommitKeepsOffServersDown | plug-core/src/engine.rs:588-592 | a commit leaves no server that is off running exactly when it refuses or its connection was dialled with the server on |
| EngineProtocol.OffServersStayDown | plug-core/src/reload.rs:74-92 | over every run in which no reconnect reads a server that is off, no connection dialled with its server off is installed |
| EngineProtocol.ReconnectCanStartServerThatIsOff | plug-core/src/engine.rs:660-694 | a complete run: a recovery claims its slot while the server is on, a reload turns the server off and stops it, and the recovery starts it again |
| EngineTasks.RestartAlone | plug-core/src/engine.rs:583-640 | a restart by itself installs a connection with today's configuration and gate in place of the old one, which is retired, and leaves nothing else behind |
| EngineTasks.ReconnectBegins | plug-core/src/engine.rs:660-695 | a reconnect by itself gets to its retry loop with today's configuration and gate, or ends with nothing changed when its server is not configured |
| EngineTasks.LooksBeforeDialling | plug-core/src/engine.rs:699-722 | before each dial a reconnect goes on exactly when its server is still configured, unchanged in material fields, and its gate is today's or does not matter; else it gives up its slot |
| EngineTasks.ReconnectAlone | plug-core/src/engine.rs:687-760 | a reconnect whose dials fail n times, n less than it may dial, and then succeed installs the connection |
| EngineTasks.GivesUpAtTheLast | plug-core/src/engine.rs:731-748 | when every dial it may make fails, it leaves everything as it was |
| EngineBoot.BootRegistrationLeaksExactly | plug-core/src/server/mod.rs:2682-2689 | a boot registration leaves every connection accounted for exactly when the entry was vacant; one that stood there is afterwards neither installed, held nor retired |
| EngineBoot.BootStepKeepsInvExactly | plug-core/src/server/mod.rs:2682-2689 | a step keeps what is needed, during a reload that each installed connection is still to be stopped or will fit, exactly when a registration finds its entry vacant and would pass the commit check, or during a reload is still to be stopped or will fit, and no start of a reload finds its entry taken |
| EngineBoot.BootKeepsWhatIsOwedExactly | plug-core/src/server/mod.rs:1606-1655 | over every run in which boot registrations interleave with all other tasks and that does not break off inside a reload: no connection is ever lost and all installed ones are current whenever no reload is under way, exactly when every step is such a one |
| Circuit.ClosedCountsFailures | plug-core/src/circuit.rs:154-223 | after every history, closed means the counter is the failures since the last success or reset, short of the threshold, with no opening time |
| Circuit.OpensExactlyAtThreshold | plug-core/src/circuit.rs:189-206 | a closed breaker opens on the failure that completes the threshold and on no other |
| Circuit.OpenRemembersWhen | plug-core/src/circuit.rs:201-220 | the stored time is when the breaker last opened |
| Circuit.OpenLastsItsDuration | plug-core/src/circuit.rs:115-131 | an open breaker becomes half-open only by a call and only after the open duration |
| Circuit.WindowAdmitsProbeCount | plug-core/src/circuit.rs:132-144 | with the drain its comment describes, each half-open window admits the probe count less the permits left, across any number of windows |
| Circuit.DrainsDifferOnlyOnLeftovers | plug-core/src/circuit.rs:132-135 | the written and the described drain differ exactly when a transition is won with permits left over |
| Circuit.AgreeWhileNoCallSpins | plug-core/src/circuit.rs:132-135 | the two agree on every history in which no call spins |
| Circuit.UnspentProbesMakeNextWindowSpin | plug-core/src/circuit.rs:134 | for every threshold, a run of that many failures, one probe and its failure after which a call spins as written, and is allowed with the described drain |
| Circuit.OpenWithoutTimeIsStuck | plug-core/src/circuit.rs:116-140 | open with no opening time rejects every call over every history without a reset |
| Circuit.OpenAlwaysHasTime | plug-core/src/circuit.rs:154-232 | with whole methods as steps, no history leads there |
| CircuitReplies.AllowedExactly | plug-core/src/circuit.rs:109-148 | with the drain its comment describes, after every history a call is let through exactly when the breaker is closed, or the open duration since the last opening is over, or its half-open window has let through fewer than the probe count |
| CircuitReplies.RefinesReference | plug-core/src/circuit.rs:109-232 | over every history the breaker's state and answers are those of a reference form with no counter, no stored time and no permits |
| CircuitReplies.PassesUntilTripped | plug-core/src/circuit.rs:109-113 | after nothing, a reset, or a success in a half-open window, every call is let through until a threshold of failures in a row |
| CircuitReplies.BlocksUntilOver | plug-core/src/circuit.rs:115-140 | after the failure that fills the threshold, or one in a half-open window, every call before the open duration is over is rejected, whatever is reported, until a reset |
| CircuitReplies.AsWrittenAnswersTheSame | plug-core/src/circuit.rs:132-135 | as written a call gets the same answer as long as none spins |
| Circuit.CircuitBreaker.CallAllowed | plug-core/src/circuit.rs:109-148 | the reply and the new state, spinning included |
| Circuit.CircuitBreaker.DrainAsWritten | plug-core/src/circuit.rs:134 | any number of turns leaves the permits as they were and ends only if there were none |
| Circuit.CircuitBreaker.DrainForgetting | plug-core/src/circuit.rs:132-134 | the loop the comment describes ends with no permit |
| Circuit.CircuitBreaker.OnSuccess | plug-core/src/circuit.rs:154-178 | the new state is the step's, and the counter cannot wrap later |
| Circuit.CircuitBreaker.OnFailure | plug-core/src/circuit.rs:185-223 | the new state is the step's; the increment does not wrap |
| Circuit.CircuitBreaker.Reset | plug-core/src/circuit.rs:228-232 | the new state is the step's |
| Circuit.CircuitBreaker.TryAcquireProbe | plug-core/src/circuit.rs:247-255 | a permit is used up exactly when the probe is let through |
| CircuitSteps.PermitsConservedStep | plug-core/src/circuit.rs:121-138 | every atomic step keeps: permits added equal probes granted, drained, held and available |
| CircuitSteps.WinsAddStep | plug-core/src/circuit.rs:121-136 | every won transition adds its permits once, sooner or later |
| CircuitSteps.PermitsOverRun | plug-core/src/circuit.rs:109-255 | both balances hold over every interleaving |
| CircuitSteps.ProbesAreBounded | plug-core/src/circuit.rs:109-255 | under every interleaving and either drain, probes granted never exceed the probe count times the transitions won |
| CircuitSteps.AsWrittenDrainsNothing | plug-core/src/circuit.rs:134 | over every run the written drain uses up no permit |
| CircuitSteps.AsWrittenLoopIsEndless | plug-core/src/circuit.rs:134 | a thread alone in the loop is still in it after any number of turns, unless it entered with no permit |
| CircuitSteps.ForgettingLoopEnds | plug-core/src/circuit.rs:132-134 | the described loop ends and takes every leftover |
| CircuitSteps.LoneReportIsOneStep | plug-core/src/circuit.rs:154-232 | a report or reset run alone through its atomic steps is one step of the simple model |
| CircuitSteps.LoneCallIsOneStep | plug-core/src/circuit.rs:109-148 | with either drain, a call run alone through its atomic steps is one step of the simple model whenever that returns, and is let through exactly when it is there |
| CircuitSteps.LoneCallSpins | plug-core/src/circuit.rs:121-136 | a call that model calls spinning is in the drain loop after any number of turns, the transition won and nothing else changed |
| CircuitSteps.OpenKeepsTimeExactly | plug-core/src/circuit.rs:154-232 | an atomic step keeps "open means the opening time is set or about to be" exactly when it is not a late clearing store while the breaker is open again |
| CircuitSteps.OpenAlwaysHasTimeExactly | plug-core/src/circuit.rs:154-232 | over every run and either drain this holds throughout exactly when no such store occurs |
| CircuitSteps.LateStoresStrandTheBreaker | plug-core/src/circuit.rs:165-232 | from every state that is not closed a sequential history reaches, one failure overlapping a success or a reset strands the breaker until a reset |
| CircuitTiming.TimeIsCurrentExactly | plug-core/src/circuit.rs:207-220 | the stored time of an open breaker is current after a step exactly when it opens with no earlier time still stored, stores a time no earlier than the last opening, or stores nothing and it was |
| CircuitTiming.CheckIsSoundExactly | plug-core/src/circuit.rs:115-119 | the elapsed-time check lets through only clock readings an open duration after the last opening exactly when the time loaded is not before that opening |
| CircuitTiming.CheckHoldsExactly | plug-core/src/circuit.rs:115-131 | over every run and every clock reading with which its clock still does not go back, a call's check means the open duration is over by its exchange exactly when the breaker does not open between the reading and the exchange, and the time it loaded is not before the last opening or an earlier event already comes an open duration after that |
| CircuitTiming.OpenLastsWhenSound | plug-core/src/circuit.rs:115-131 | so in every such run the reading comes an open duration after the breaker last opened |
| CircuitTiming.ReopenedIsTooEarly | plug-core/src/circuit.rs:119-131 | a breaker that opens between a call's clock reading and its exchange is always tried before its new open duration is over |
| CircuitTiming.WaitingCallCutsOpenShort | plug-core/src/circuit.rs:115-131 | from every open breaker whose duration is over, a run in which a call loads the time of the last opening, another wins the transition, a probe fails and the breaker opens again, and the first call's exchange ends that at once |
| CircuitTiming.OpenLastsUnlessStale | plug-core/src/circuit.rs:115-131 | whatever the clock does, a call that finds the breaker open at its exchange read the clock an open duration after the last opening, unless the time it loaded was behind or the breaker opened again since |
| CircuitTiming.OpenCanLastNoTime | plug-core/src/circuit.rs:207-220 | from every half-open breaker opened an open duration ago, a run in which it opens and is half-open again with no time gone by |
| CircuitTiming.StoredTimeCanGoBack | plug-core/src/circuit.rs:207-220 | from every half-open breaker opened an open duration ago, a run in which it opens at one time, stores it, and then has an earlier one stored over it |
| Supervision.NextRestartWaits | plug-core/src/engine.rs:372-397 | the restart after the k-th since a reset comes at least the k-th interval later, or the longest one if a reset came between |
| Supervision.HealthyBlipKeepsCount | plug-core/src/engine.rs:423-445 | a healthy tick clears the count exactly when the longest interval has passed since the last restart |
| Supervision.RestartsExactly | plug-core/src/config/mod.rs:163-190 | with supervision on, a tick brings a restart exactly when the circuit is open or enough bad checks came in a row, no recovery is under way, and the wait since the last restart is over |
| Supervision.RequiredWaitIsCappedPower | plug-core/src/config/mod.rs:181-184 | the wait is the shortest interval doubled once per restart, sixteen times at most, up to the longest |
| Supervision.StaysDownIsRestarted | plug-core/src/health.rs:173-195 | a server that stays down is restarted: no stretch of such ticks passes the longest interval without |
| Supervision.WaitGrows | plug-core/src/config/mod.rs:181-184 | the required wait never shrinks with the count |
| Supervision.WaitReachesCap | plug-core/src/config/mod.rs:181-184 | from the least exponent that reaches it on, the wait is the cap |
| Supervision.RestartsAfter | plug-core/src/health.rs:173-195 | restarts from a given count are at most the doublings left and one burst per cap-long gap |
| Supervision.RestartsInWindow | plug-core/src/health.rs:173-195 | in any stretch of time, whatever the server does, supervised restarts are at most one burst and one more per cap-long gap that fits |
| Supervision.Supervisor.Supervise | plug-core/src/health.rs:182-195 | one health tick resets, restarts or does neither exactly as the step says |
| Supervision.Supervisor.NoteRestart | plug-core/src/server/mod.rs:1175-1182 | any recovery stamps the clock and leaves the count |
| Recovery.DelayIsCappedPower | plug-core/src/health.rs:282-287 | the n-th delay is 2^(n-1) seconds up to a minute; the stop at sixteen doublings never shows |
| Recovery.DelayNeverShrinks | plug-core/src/health.rs:282-287 | delays never get shorter within a backoff |
| Recovery.CapIsAnnouncedOnce | plug-core/src/health.rs:276-280 | the cap is reached for the first time at the seventh failure and at no other |
| Recovery.WaitsClosedForm | plug-core/src/health.rs:268-288 | what n failures make an episode wait in all |
| Recovery.RecoveryBackoff.RecordFailure | plug-core/src/health.rs:270-273 | one more failure, and the delay that belongs to it |
| Recovery.FailTurn | plug-core/src/health.rs:352-393 | what a failed attempt adds to the episode, how long it then waits and what a wake-up does to the backoff |
| Recovery.RunEpisode | plug-core/src/health.rs:318-400 | the loop goes through exactly the failures and notices of its specification, wake-ups included |
| Recovery.LateFailuresAreFarApart | plug-core/src/health.rs:318-400 | without a wake-up, the n-th failed attempt, n at least seven, comes no sooner than 63 + 60 (n - 7) seconds in |
| Recovery.SlowestRateAnnouncedOnce | plug-core/src/health.rs:352-377 | an episode warns at its first failure and at its seventh, and at no other |
| Recovery.EpisodeToTheSecond | plug-core/src/health.rs:318-400 | when each attempt of an episode fails and how loudly, exactly: the attempts before it, their doubled waits, the extra, and what wake-ups cut off or start over |
| Recovery.EpisodeEndsExactly | plug-core/src/health.rs:327-399 | an episode ends with the first attempt that works or the first failure after which the server needs nothing more |
| Recovery.OneEpisodePerServer | plug-core/src/engine.rs:353-367 | over any triggers and ends at most one episode per server is live, and its flag is up exactly then |
| Recovery.TriggerStartsExactly | plug-core/src/health.rs:230-255 | a trigger starts an episode exactly when none of the server is live, and one that ends makes room |
| Recovery.RetryDelayIsCappedPower | plug-core/src/engine.rs:745 | the retries inside a reconnect wait a tenth of a second, doubled up to two seconds |
| Recovery.DoReconnect | plug-core/src/engine.rs:687-749 | never more dials than allowed, each after a fresh look, all but the last failed in a way worth retrying; the outcome and the time slept |
| RefreshLoop.SleepsTowardsTheWindow | plug-core/src/oauth.rs:226-270 | a sleep is 5 to 30 seconds, does not pass the moment a refresh is due by five seconds, and ends within the token's life |
| RefreshLoop.ReconnectBetweenRefreshes | plug-core/src/engine.rs:1184-1298 | in every run of the loop, between any two successful exchanges there is a reconnect that returned Ok |
| RefreshLoop.NoExchangeAfterTerminal | plug-core/src/engine.rs:1252-1307 | in every run of the loop, after a terminal outcome there is at most the mark and the loop is over |
| RefreshLoop.ExchangesExactlyWhenDue | plug-core/src/engine.rs:1184-1240 | in every run, a turn with no token waiting and a server to serve exchanges exactly when the token has fallen due: 300 seconds before its life is over, or half-way through a life of less than 600 |
| RefreshLoop.ReconnectsWhilePending | plug-core/src/engine.rs:1184-1187 | with a token waiting to be taken up, the turn tries to reconnect instead |
| RefreshLoop.LooksAgainExactly | plug-core/src/engine.rs:1188-1202 | when the loop looks again: as the token falls due, 5 seconds later at the soonest and 30 at the latest, or in 30 |
| RefreshLoop.EndsExactly | plug-core/src/engine.rs:1159-1318 | the loop ends exactly when it is cancelled or replaced, has no server to serve, or was refused for good |
| RefreshLoop.TokenIsExchangedInTime | plug-core/src/engine.rs:1159-1240 | with the slept seconds as its clock, and turns held up by no more than 25 seconds, the loop exchanges a token in hand before its life is over |
| RefreshLoop.DueTurnComes | plug-core/src/engine.rs:1196-1202 | the turn that finds it due comes, after a number of turns bounded by the lifetime |
| RefreshLoop.EveryRunIsDisciplined | plug-core/src/engine.rs:1146-1320 | every sequence of turns keeps the discipline these rest on |
| RefreshLoop.OneTurn | plug-core/src/engine.rs:1159-1318 | one pass of the body does what the turn's step says |
| RefreshLoop.RunRefreshLoop | plug-core/src/engine.rs:1146-1320 | the loop's log is the specification's and is disciplined to its end |
| SecretKeeping.KeepIsFaithful | plug-core/src/secrets/mod.rs:479-533 | storing touches only the names it records, records what each held first, and leaves each field as it was or as a reference to a stored value |
| SecretKeeping.FieldsBecomeReferences | plug-core/src/secrets/mod.rs:490-532 | a credential that was typed becomes a reference exactly when the store can be read and written; every other field stays |
| SecretKeeping.SlotHoldsTypedText | plug-core/src/secrets/mod.rs:505 | a secret holds the text typed in the last field stored under its name |
| SecretKeeping.EveryTypedTextIsKept | plug-core/src/secrets/mod.rs:490-532 | when names tell the fields apart, every field's own text is behind its reference |
| SecretKeeping.PutBackEffect | plug-core/src/secrets/mod.rs:535-555 | each recorded name gets back what it held unless reported, and nothing else changes |
| SecretKeeping.UndoRestoresTheVault | plug-core/src/secrets/mod.rs:479-555 | storing and putting back leave every secret as it was but those reported |
| SecretKeeping.ForgetSparesWhatIsUsed | plug-core/src/secrets/mod.rs:557-605 | forgetting never changes a secret the remaining configuration refers to, and adds none |
| SecretKeeping.ForgetsExactly | plug-core/src/secrets/mod.rs:557-605 | a secret is removed exactly when a field of the leaving server refers to it, no other does, Plug made it, and the store takes the removal |
| SecretKeeping.RefusedChangeLeavesNothing | plug-core/src/engine.rs:894-910 | a refused change leaves the file and every stored value as they were, but those reported |
| SecretKeeping.AcceptedChangeIsAsAsked | plug-core/src/engine.rs:861-926 | after every other outcome the file is as asked and otherwise what it was, and what was typed is behind its references |
| SecretKeeping.ForgottenExactly | plug-core/src/engine.rs:916-926 | a confirmed change of a running server removes exactly the secrets that server referred to and nothing in the new file does, that Plug made and may remove; no other change removes any |
| SecretKeeping.OutcomeExactly | plug-core/src/engine.rs:880-915 | which outcome there is, from the save and the load |
| SecretKeeping.WrittenResolves | plug-core/src/engine.rs:974-1052 | the new file's references all lead somewhere exactly when the person's own do |
| SecretKeeping.ForgettingKeepsResolution | plug-core/src/engine.rs:916-926 | removing unused secrets leaves every reference as it was |
| SecretKeeping.NoReferenceIsLeftDangling | plug-core/src/engine.rs:861-944 | after any outcome, saved but unconfirmed included, no reference lacks its value unless the person wrote one that led nowhere |
| SecretKeeping.Keeper.KeepStaged | plug-core/src/secrets/mod.rs:481-533 | the loop over the fields reaches the specification's stores, server and record |
| SecretKeeping.Keeper.PutBackStaged | plug-core/src/secrets/mod.rs:539-555 | the loop over the record reaches the specification's stores and failures |
| SecretKeeping.Keeper.ForgetUnused | plug-core/src/secrets/mod.rs:562-605 | the loop over the old fields reaches the specification's stores |
| SecretKeeping.Keeper.ApplyOperatorMutation | plug-core/src/engine.rs:861-944 | the whole change, with its four outcomes, reaches the specification's file and stores |
| ArtifactStore.SortByAge | plug-core/src/artifacts.rs:362 | the same directories, oldest first |
| ArtifactStore.BytesSameInAnyOrder | plug-core/src/artifacts.rs:360 | the total does not depend on the listing order |
| ArtifactStore.PruneLeavesNothingOld | plug-core/src/artifacts.rs:331-358 | after a prune no record has expired and no directory is over age; what stays is unchanged |
| ArtifactStore.EvictsShortestOldestRun | plug-core/src/artifacts.rs:360-371 | the rest fits, it did not fit with the last one evicted, and nothing kept is older than something evicted |
| ArtifactStore.PruneEvictsOldestUntilItFits | plug-core/src/artifacts.rs:328-372 | the same of a whole prune, which drops the same entries from index and disk |
| ArtifactStore.PruneKeepsIndexBacked | plug-core/src/artifacts.rs:344-371 | a prune keeps every index entry's directory exactly when the age pass takes none of a live record |
| ArtifactStore.IndexAlwaysBacked | plug-core/src/artifacts.rs:175-195 | over every run of spills, reads, prunes and restarts every index entry has its directory |
| ArtifactStore.StaysThereExactly | plug-core/src/artifacts.rs:252-372 | an artifact that is there is gone after a step exactly when that reads it past its expiry, prunes it at its expiry or over age, or evicts it for size |
| ArtifactStore.SpilledStaysUntilTaken | plug-core/src/artifacts.rs:175-195 | a spilled artifact is there, with its size, over every run until such a step; it expires 72 hours after the spill, rounded down to a second by the first restart |
| ArtifactStore.AgePassCanStrandRecord | plug-core/src/artifacts.rs:344-354 | a record that outlives its directory's age limit is left without it |
| ArtifactStore.Artifacts.PruneWithLimits | plug-core/src/artifacts.rs:328-372 | the three passes in place reach the specification, in any listing order |
| ArtifactStore.Artifacts.RemoveExpired | plug-core/src/artifacts.rs:331-342 | exactly the expired go, from both sides, in any order |
| ArtifactStore.Artifacts.RemoveOverAge | plug-core/src/artifacts.rs:344-354 | exactly the directories over age go |
| ArtifactStore.Artifacts.EvictFrom | plug-core/src/artifacts.rs:363-370 | the loop stops after the least number that makes the rest fit |
| ArtifactStore.Artifacts.EvictForSize | plug-core/src/artifacts.rs:360-371 | the oldest that have to go, from both sides |
| ArtifactStore.Artifacts.Find | plug-core/src/artifacts.rs:252-268 | an artifact is found exactly when it is indexed and not past its expiry; an expired one is removed |
| ArtifactAccess.DecimalReadsBack | plug-core/src/artifacts.rs:603 | printed digits read back as the number |
| ArtifactAccess.PrintedNumberParses | plug-core/src/artifacts.rs:626 | a printed index parses back exactly when it fits the word |
| ArtifactAccess.SplitOnceExactly | plug-core/src/artifacts.rs:621 | the split is at the first slash, for every text |
| ArtifactAccess.ManifestUriExactly | plug-core/src/artifacts.rs:598-632 | a manifest request comes from exactly the text printed for its id, and never for an id with a slash |
| ArtifactAccess.ChunkUriExactly | plug-core/src/artifacts.rs:602-632 | a chunk request comes from exactly the texts of its id and a number that reads as its index |
| ArtifactAccess.PrintedChunkParses | plug-core/src/artifacts.rs:602-632 | printing then parsing gives back id and index exactly when the id has no slash and the index fits |
| ArtifactAccess.ChunkReadsExactly | plug-core/src/artifacts.rs:638-656 | a chunk read succeeds exactly below the recorded count, with no overflow |
| ArtifactAccess.ChunksReassemble | plug-core/src/artifacts.rs:638-656 | all chunks in turn give back the payload, for every length |
| ArtifactAccess.RehydratesExactly | plug-core/src/artifacts.rs:707-757 | a record written and read back is the same exactly when its times are whole seconds and its files are in its directory |
| ArtifactAccess.RehydrationSettles | plug-core/src/artifacts.rs:707-757 | writing what was read back changes nothing more |
| TomlText.TwoReplacementsAreOneEscape | plug-core/src/import.rs:1086-1088 | the two replacements one after the other are one single-pass escape |
| TomlText.QuoteRoundTrips | plug-core/src/import.rs:1086-1088 | a quoted string reads back as itself exactly when it has no control character |
| TomlText.ArrayRoundTrips | plug-core/src/import.rs:1051-1055 | a printed argument list reads back as itself |
| TomlText.HeaderLineReads | plug-core/src/import.rs:1043 | a printed header reads as the table of its bare keys |
| HeaderKeys.ServerHeadersRead | plug-core/src/import.rs:1043-1076 | the two headers of a server whose name makes a key, with space around it or in quotes, read as the tables of that key |
| HeaderKeys.NoNameReads | plug-core/src/import.rs:1043 | a name without a dot or closing bracket that makes no key is refused in a header |
| TomlText.EntryLineReads | plug-core/src/import.rs:1049 | a printed entry reads as its key and value |
| TomlPrinter.EntriesFillTable | plug-core/src/import.rs:1045-1080 | the entries under a fresh header fill exactly that table |
| TomlPrinter.ServerReads | plug-core/src/import.rs:1043-1081 | one server's lines, read after any file, are refused exactly when the key its name makes is taken and else add its tables under that key |
| ImportedServers.UsedAfterIsUsedAndGiven | plug-core/src/import.rs:1036-1041 | the names in use are always those there were and those given out |
| ImportedServers.NamesDifferExactlyWhenFree | plug-core/src/import.rs:956-998 | the names given out are new and different exactly when at every server its own or its suffixed name was free |
| ImportedServers.NewNamesAreKept | plug-core/src/import.rs:961-963 | servers with new and different names keep them |
| ImportedServers.LinesRead | plug-core/src/import.rs:1034-1084 | all the lines together are readable exactly when every name given makes a key new to the file and every value is free of control characters, and then add exactly the servers' tables under those keys |
| TomlReader.BreakStartsALine | plug-core/src/import.rs:1043 | the line break in front makes the text start a line of its own wherever the file stopped |
| BrokenLines.BrokenServer | plug-core/src/import.rs:1043-1088 | the lines of a server whose name, without a dot or closing bracket in it, makes no key, or one of whose values holds a control character, are refused after any file |
| ImportedServers.AppendedTextReads | plug-core/src/import.rs:1034-1084 | the same of the text appended to a file, when the names in use that were passed are not those the file defines |
| ImportedServers.AppendedFileReads | plug-core/src/import.rs:1034-1084 | appended to any readable file, its last line finished or not, the text leaves a readable file exactly when every name given makes a key new to it and every value is free of control characters |
| ImportedServers.BareNamesReadExactly | plug-core/src/import.rs:1034-1084 | for bare names that is exactly when free names were on offer and the values are such |
| ImportedServers.ImportedServersComeBack | plug-core/src/import.rs:1034-1084 | the file can be read exactly then; everything it said is still there, and each server comes back under its key with its transport, command and arguments or address, and environment, exactly when it is local or has its address |
| ImportedServers.PrintedTextReadsBack | plug-core/src/import.rs:1034-1084 | for every list with different bare names the text alone reads back as those servers under those names |
| ImportedServers.ShownComesBack | plug-core/src/import.rs:1045-1071 | which servers the printer carries, exactly |
| ImportedServers.SuffixCanCollide | plug-core/src/import.rs:997 | a server whose name and suffixed name are both taken makes the file unreadable |
| ImportedServers.SpacesHideCollisions | plug-core/src/import.rs:1036-1043 | two names that differ by a space at the end are both free and kept, and the file becomes unreadable |
| ImportedServers.DottedNameIsAnother | plug-core/src/import.rs:1043 | a name of two parts defines a table inside that of the server named by the first part, and no server of its own name |
| ImportedServers.PushBody | plug-core/src/import.rs:1045-1071 | appends the text of the server's own table |
| ImportedServers.PushEnv | plug-core/src/import.rs:1073-1080 | appends the text of the environment table, in order, or nothing |
| ImportedServers.ServersToToml | plug-core/src/import.rs:1034-1084 | the buffer ends up as the specification's text, names resolved against those in use |
| ConfigImport.DedupKeepsTheFirsts | plug-core/src/import.rs:938-945 | exactly the first server of each signature is kept, in order |
| ConfigImport.DedupKeepsEachSignatureOnce | plug-core/src/import.rs:938-945 | no signature is lost and none is kept twice |
| ConfigImport.DedupIsIdempotent | plug-core/src/import.rs:938-945 | deduplicating again changes nothing |
| ConfigImport.DedupServers | plug-core/src/import.rs:939-945 | the loop over the seen set reaches the specification |
| ConfigImport.Import | plug-core/src/import.rs:189-214 | new, skipped and merged add up to what was discovered, with no underflow |
| ConfigImport.NewServersCompleteTheKnown | plug-core/src/import.rs:201-206 | what is new is one server for each discovered signature not known before |
| ConfigImport.LeftInOrder | plug-core/src/import.rs:203-206 | what is new is every server whose signature is not known, in the order they came |
| ConfigImport.SameSignatureExactly | plug-core/src/import.rs:916-934 | any two servers have the same signature exactly when they have the same transport and the same address, specification, or, for local ones, the same words: command and arguments, cut at every space, come to the same list |
| ConfigImport.WordsTellCommandsApart | plug-core/src/import.rs:918-922 | so for commands made of words, equal signatures mean equal commands and arguments |
| ConfigImport.SpacesHideArguments | plug-core/src/import.rs:918-922 | and one argument with a space is merged with two, and no argument with an empty one |
| SecondImport.PrintedServerLoads | plug-core/src/config/mod.rs:973-1056 | a printed server passes validation exactly when it has its command or address and a name that passes; its loaded signature is that of the discovered one with references expanded |
| SecondImport.LoadedIsExpanded | plug-core/src/config/mod.rs:1139-1150 | it comes with its transport, and with every reference in its command, each argument or its address expanded |
| SecondImport.BareNamePassesExactly | plug-core/src/config/mod.rs:973-987 | a bare name passes validation exactly when it is no longer than 255 and does not hold the delimiter |
| SecondImport.NewFileLoadsExactly | plug-core/src/config/mod.rs:1320-1342 | for a file that loaded before, the new file loads exactly when all the added servers are such |
| SecondImport.SecondImportFinds | plug-core/src/import.rs:189-214 | a second import over the same clients finds everything again when the new file does not load, and else exactly the servers whose signature is neither among those known before nor among the expanded ones of the added servers |
| SecondImport.SecondImportFindsNothing | plug-core/src/import.rs:201-206 | so it finds nothing when all that was added loads back and no expansion changes a signature |
| SecondImport.OneServerIsFoundAgain | plug/src/commands/misc.rs:63-66 | a single new server is found again exactly when it has no command or address, its name does not pass, or expansion changes its signature |
| SecondImport.AcceptingItBreaksTheFile | plug/src/commands/misc.rs:147-155 | whenever the new file does not load, accepting what the second import finds leaves a file that cannot be read |
| PlugUnlink.SkippedExactly | plug-core/src/import.rs:1004-1026 | a line is skipped exactly when a plug header at or before it has met no ending header since |
| PlugUnlink.KeepsExactlyTheRest | plug-core/src/import.rs:1001-1030 | the lines kept are exactly the others, in order |
| PlugUnlink.NoHeaderIsKept | plug-core/src/import.rs:1008-1014 | no plug header is kept |
| PlugUnlink.NoIndentedHeaderIsKept | plug-core/src/import.rs:1005-1014 | none of the three forms of it is kept, whatever space is around it |
| PlugUnlink.LeftAloneExactly | plug-core/src/import.rs:1001-1030 | lines stay as they are exactly when there is no plug header among them |
| PlugUnlink.KeptIsIdempotent | plug-core/src/import.rs:1001-1030 | on lines, doing it again changes nothing |
| PlugUnlink.UnlinkedAgainExactly | plug-core/src/import.rs:1004-1030 | on text, doing it again changes nothing exactly when the kept lines have settled line ends |
| PlugUnlink.BlankLinesKeepGoing | plug-core/src/import.rs:1004-1030 | two trailing blank lines become one, then none |
| PlugUnlink.LongerNameGoesToo | plug-core/src/import.rs:1017-1026 | the section after plug's goes too when its name begins with "plug" |
| PlugUnlink.OnlyOwnLinesGoExactly | plug-core/src/import.rs:1004-1026 | whichever headers count as plug's own: no line under another header, or under none, is dropped exactly when no other header with ".plug" or "plug" in quotes in its text is met while skipping |
| PlugUnlink.UnlinkToml | plug-core/src/import.rs:1001-1031 | the loop reaches the specification's text |
| Activity.RingIsNewest | plug-core/src/activity.rs:93-109 | the ring is the newest 500 of everything recorded, numbered without a gap |
| Activity.SnapshotIsNewestMatching | plug-core/src/activity.rs:111-130 | a snapshot is the newest matching events up to the limit, in order |
| Activity.SnapshotShowsExactly | plug-core/src/activity.rs:111-130 | an event is shown exactly when it matches, is among the newest 500 and fewer than the limit newer ones match |
| Activity.FailuresShownExactly | plug-core/src/activity.rs:111-130 | a snapshot of failures shows exactly the failed and cancelled events after the one asked for, among the newest 500, with fewer failures after them than the limit |
| Activity.PollGives | plug-core/src/activity.rs:117-129 | asking for what came after an event gives all of it that is still there |
| Activity.PollerReadsEverythingExactly | plug-core/src/activity.rs:93-130 | a poller that feeds back the last number reads every event once and in order exactly when no more than 500 came between polls |
| Activity.ActivityStore.Record | plug-core/src/activity.rs:93-109 | the history grows by the event and the ring follows it |
| Activity.ActivityStore.Snapshot | plug-core/src/activity.rs:111-130 | what is returned, in terms of everything recorded |
| Activity.NumbersStayDistinct | plug-core/src/activity.rs:94-108 | however stamping and appending interleave, no number is used twice and the ring stays within 500 |
| Activity.OrderKeptExactly | plug-core/src/activity.rs:94-108 | the ring stays in order exactly when the event appended was not overtaken |
| Activity.OvertakenEventIsMissed | plug-core/src/activity.rs:94-130 | a run in which a poller never reads an event |
| ActivityPolling.AppendedIsReadExactly | plug-core/src/activity.rs:94-130 | an event appended is in a poller's next batch exactly when its number is above the poller's cursor |
| ActivityPolling.PollerReadsEachOnceExactly | plug-core/src/activity.rs:93-130 | over every run of stamps, appends and polls the poller has read every event appended by its last poll once and in order, exactly when at every poll at most 500 were new, every new one was above the cursor and no old one in the ring was |
| ActivityPolling.InOrderRunsExactly | plug-core/src/activity.rs:93-130 | when events are appended in the order of their numbers, that is exactly when no more than 500 come between polls |
| ActivityPolling.OvertakingEventIsReadTwice | plug-core/src/activity.rs:94-130 | a run in which a poller reads an event twice |

## Left out

- Weak memory: interleavings are sequentially consistent; the orderings on the atomics are not modelled.
- Dials, transports, ping and the token endpoint: each is an outcome a run may take (success, retryable failure, fatal failure).
- EngineProtocol.InvStep: these runs start after boot; the runs of EngineBoot add boot registrations, with any configuration and gate they may have dialled under, at any moment.
- Retirement: a connection counts as retired when it is handed over; the grace period and the shutdown of its process are not modelled.
- Shutdown and cancellation, except where a loop ends on them.
- The commit body and each method of the server manager are single steps under the lock; map shards and their guards are not modelled.
- The ten-second restart cooldown, the enable and disable call that clones the configuration without the lock, and reload errors from loading a file.
- Generation counters: an old task whose number is given out again after a clear is not ruled out; the refresh loop takes "still current" as an input.
- Per-window probe bound for interleaved atomic operations: a slow winner adds its permits late, so only the bound over all windows is claimed.
- CircuitTiming.CheckHoldsExactly: the clock does not go back and the open duration is not zero.
- Supervision.RestartsInWindow: the clock is monotone; reloads, which also clear the count, are not among the events.
- Recovery.LateFailuresAreFarApart: the random extra delay is any non-negative delay, and a wake-up that starts the backoff over is excluded as its hypothesis says.
- RefreshLoop.TokenIsExchangedInTime: a token whose expiry the store hands out does not change while the loop waits for it.
- RefreshLoop.RunRefreshLoop: the token store and both looks at the configuration are inputs of each turn.
- SecretKeeping.NoReferenceIsLeftDangling: the configured stores are all writable or read-only by name; a store that is missing, restoring redacted placeholders, external secret commands, and a join failure of the storing task are not modelled. The running configuration after a successful reload is the file.
- ArtifactStore.IndexAlwaysBacked: a directory's time stamp is not earlier than the process clock when its record was made (a file system with coarser stamps could give an earlier one); a spill is one step, deletions succeed, identifiers are fresh, and directories without metadata from older versions are not rehydrated.
- ArtifactStore.SpilledStaysUntilTaken: identifiers are fresh, so the same artifact is not spilled twice.
- ArtifactStore.SortByAge: byte totals are unbounded; the 64-bit sum of directory sizes is assumed not to wrap.
- ArtifactAccess.ChunksReassemble: about bytes; the text form replaces a character split across chunks.
- ArtifactAccess.RehydratesExactly: field by field; the JSON encoding of the metadata is not modelled.
- TomlReader: dotted or quoted keys of entries, arrays of tables, values that go over more than one line and lines that end in a carriage return are refused; values other than strings and arrays of strings are carried as written, and not checked.
- ImportedServers.AppendedFileReads: the file it is appended to is one the reader above reads; names have no dot and no closing bracket in them, and environment names are bare and different from each other.
- ImportedServers.DottedNameIsAnother: names of two bare parts, for a server with no environment; a name with a closing bracket or more dots is not covered.
- SecondImport.SecondImportFinds: one file is loaded, without the settings that PLUG_ variables override; a table with settings the printer does not write is read by an arbitrary function of it, and validation of everything else is taken to pass.
- SecondImport.AcceptingItBreaksTheFile: for added servers with bare names.
- ImportedServers.ServersToToml: the environment is a list in the order it is walked; the hash map's own order is not fixed.
- Activity.ActivityStore.Record: timestamps are not modelled and the 64-bit sequence is assumed not to wrap.
- Reading client configuration files, secret-looking environment values, previews, attachments and activity reasons: easy members about parsing and text.
- Diagnostics, export, client detection, icons, enrichment, TLS, file permissions and the Swift application.
