# C4D cluster protocol, verified

A Dafny model of the C4D training-cluster control plane: the server that admits nodes,
detects failures and renumbers ranks, the monitor and process supervisor on each node, the
latency reporting between them, and the task distributor. Handlers that update objects in
place are classes here, with the fields the code has; each method is proved against a
specification function, and the properties are lemmas about those functions over whole runs.

| file | holds |
|---|---|
| `ClusterTypes.dfy`, `ClusterSpec.dfy` | records, configuration and what each server handler does |
| `ServerParts.dfy`, `C4DServer.dfy` | the server's objects, proved to do what `ClusterSpec` says |
| `ClusterFacts.dfy`, `ClusterSafety.dfy` | effects of single updates; what every handler keeps |
| `ClusterLaws.dfy`, `NodeLaws.dfy` | what single operations promise, in terms of the fields alone |
| `ClusterRuns.dfy`, `ClusterTheorems.dfy` | the transition system and safety over all its runs |
| `StartUp.dfy`, `RankRuns.dfy`, `FailureCount.dfy` | when a start stays possible, ranks stay distinct, failures are counted once |
| `InlineCalls.dfy`, `ClusterScenarios.dfy` | uninterrupted calls as runs; runs that end badly |
| `Reconfiguration.dfy`, `Accounting.dfy`, `Hearing.dfy`, `TimedDetector.dfy` | ranks and outcomes, counter accuracy, detection in time |
| `Supervisor.dfy`, `MonitorNode.dfy` | the process supervisor and the monitor on a node |
| `EndToEnd.dfy` | server commands carried out by nodes: agreement on rank and world size |
| `Latency.dfy` | sliding windows, reported means, the latency matrix |
| `TaskDistribution.dfy` | the task distributor under interleaved requests |
| `Collections.dfy` | counting lemmas, sorting, Go's string order |

## Reading the model

* A server run is a sequence of steps. Every handler, and every attempt of a reconfiguration
  in flight, is one atomic step; attempts of several reconfigurations and all handlers
  interleave freely. What the code leaves open (which standby is promoted, how `sort.Slice`
  breaks ties, which nodes answer with an error) is part of the step, so a statement about
  every run is a statement about every choice.
* No step follows `Failed`: entering it ends the process.
* A start round may also come by itself, outside a registration, which the code never does;
  what holds of every run holds with it, and `CanStartExactlyWhen` looks for runs without it.
* `NotifyFailure` is split into its check, which only reads, and its act; a run contains the
  acts, at any time, so every interleaving of checks and acts is covered.
* Node IDs and URLs have one type. After a refused command the code looks the URL up among
  the IDs; the model keeps that lookup as written, and `RejectionTakes` says what it does for
  any names.
* A command is carried out against a script of everything that is not up to the node: lost
  requests and answers, shells that exit, launches that fail.
* `ActiveNodes` is `expected - standby` and positive; a negative standby number is possible,
  as in the code.
* The network, the operating system and the nodes' answers are arbitrary. The monitor's
  results assume that a kill kills and that waiting on a shell does not error;
  `SupervisedExactlyWhen` says what happens otherwise.

## Where the code does not do what its documentation or logs suggest

* A health tick never lowers the active or standby counter (`TickExactWhen`). Capacity still
  holds (`CapacityOverEveryRun`), but the program can be started only as long as no active
  node has timed out before (`CanStartExactlyWhen`, `TickEndsStartsExactlyWhen`;
  `StartUpTimeoutFromBoot` is a run).
* Nor does it set the health record to failed, so the silence of a failed node is counted as a
  new failure at every tick (`FailuresCountedExactlyWhen`).
* Admission takes the active counter for a free rank. After a sweep it need not be one
  (`DistinctExactlyWhen`, `RanksCollideFromBoot`).
* Failing or removing an entry that is not active, with nothing in flight, leaves the server
  in `Reconfiguring` for as long as no active node is lost (`WedgedExactlyWhen`,
  `UnwedgedExactlyWhen`; `StandbyLossFromBoot` is such a run).
* A refusing node is not what a failed round marks: it marks the entries whose IDs are URLs of
  refusing nodes (`RejectionTakes`, `MarkedExactlyWhen`). The pool shrinks exactly when there
  are such entries (`RejectionShrinksExactlyWhen`), so with the monitor's own naming it never
  does (`RejectionMarksNobody`), and with mixed names a bystander can go
  (`MixedNamesLoseAStandby`).
* Two active entries behind one URL can both accept a restart, and then only one of them
  runs with its rank; `ReconfigurationAgreement` is exact about it and
  `SharedUrlBreaksAgreement` shows a run.
* Two task creations can choose the same node, and then a task can run on a node that does not
  hold it (`PointedExactlyWhen`, `RaceLosesATask`).
* `Start` on the monitor gives up after a retry even when the retry succeeds
  (`StartsExactlyWhenFirstAccepted`).
* The repository's Go tests expect a reconnect to revive a failed node; the code does not,
  and `FailedIsAbsorbing` follows the code.

## Model

| member | source | states |
|---|---|---|
| ServerParts.ServerState.Transition | components/c4d-server/src/state.go:26-79 | accepts exactly Failed and the moves in the table; an accepted move changes the state and raises its count by one, anything else (and Failed on Failed) changes nothing |
| ServerParts.NodeRegistry.RegisterNode | components/c4d-server/src/registry.go:21-40 | node and health record are written together under the same ID |
| ServerParts.NodeRegistry.UpdateNodeHealth | components/c4d-server/src/registry.go:42-52 | refuses unknown nodes and otherwise replaces just that health record |
| ServerParts.NodeRegistry.MarkNodeFailed | components/c4d-server/src/registry.go:67-82 | fails node and record together, leaves everything alone for an unknown node; the nil dereference is impossible when both maps have the same keys |
| ServerParts.SessionManager.RegisterSession | components/c4d-server/src/session.go:29-62 | a known session is reconnected and counted, and keeps its rank when the new one is negative |
| ServerParts.SessionManager.DisconnectSession | components/c4d-server/src/session.go:87-95 | only the named session changes, to disconnected and seen now |
| ServerParts.SessionManager.CleanupSessions | components/c4d-server/src/session.go:97-107 | in any iteration order, drops exactly the sessions that are disconnected and older than the limit |
| C4DServers.C4DServer.constructor | components/c4d-server/src/server.go:34-58 | an empty server, Initializing, with nothing in flight |
| C4DServers.C4DServer.Register | components/c4d-server/src/server.go:110-228 | reconnect, admit by counters, or turn away; completing the membership runs the start round; accepted exactly when the node is in and no start command it triggered was refused |
| C4DServers.C4DServer.SendHeartbeat | components/c4d-server/src/server.go:230-243 | acknowledged exactly when a health record exists, whose time alone changes |
| C4DServers.C4DServer.NotifyFailure | components/c4d-server/src/server.go:262-293 | uninterrupted: acts exactly on live entries and otherwise changes nothing; says when the registry lock stays held |
| C4DServers.C4DServer.WorthReporting | components/c4d-server/src/server.go:262-272 | acting at once counts one more failure, and lowers one counter, exactly when the check passes and the transition is taken; when the check fails acting would move no counter |
| C4DServers.C4DServer.ActOnFailure | components/c4d-server/src/server.go:274-288 | the act half: node and record fail, one counter is lowered, a reconfiguration is put in flight exactly for an active node; a refused transition stops with nothing changed |
| C4DServers.C4DServer.HandleNodeFailure | components/c4d-server/src/server.go:371-412 | as above without the health record; says exactly when it returns with the lock held |
| C4DServers.C4DServer.AdvanceReconfiguration | components/c4d-server/src/server.go:402-410 | one attempt of a reconfiguration in flight: its effect, and whether it is rescheduled, finished, or fails the server |
| C4DServers.C4DServer.CleanupDeadConnections | components/c4d-server/src/server.go:414-449 | in any iteration order: every record silent for two time-outs goes with its entry, its session is disconnected, and each counter drops by the entries of its role |
| C4DServers.HealthMonitor.CheckNodesHealth | components/c4d-server/src/monitor.go:40-56 | in any iteration order: the silent nodes fail and no active or standby counter moves; then stale sessions go |
| C4DServers.HealthMonitor.HandleNodeTimeout | components/c4d-server/src/monitor.go:58-71 | the status is overwritten before it is tested, so both counter branches are dead |
| C4DServers.ClusterManager.ReconfigureCluster | components/c4d-server/src/cluster.go:26-114 | for every order, tie-break and set of refusals: a chain of at most three rounds, all but the last retried, ending as the last round ends or Failed |
| C4DServers.ClusterManager.AttemptRound | components/c4d-server/src/cluster.go:40-106 | one round; asks for another exactly when the pool sufficed and a node rejected |
| C4DServers.ClusterManager.PromoteNeeded | components/c4d-server/src/cluster.go:40-75 | promotes min(needed, spare) standbys chosen arbitrarily and moves both counters by that number |
| C4DServers.ClusterManager.PromoteStandbys | components/c4d-server/src/cluster.go:61-69 | the i-th promoted node gets rank a + 2i because activeNodes grows inside the loop |
| C4DServers.ClusterManager.NotifyNodesInParallel | components/c4d-server/src/cluster.go:399-464 | ranks follow the order; after refusals the registry entries named by the refusing URLs are failed |
| C4DServers.ClusterManager.MarkFailures | components/c4d-server/src/cluster.go:444-457 | in any order, fails the entries whose ID equals a refusing URL and counts only the active ones |
| C4DServers.ClusterManager.RemoveNode | components/c4d-server/src/cluster.go:193-223 | removes entry and record under a counted transition and, for an active node, ends as a whole reconfiguration call does |
| C4DServers.ClusterManager.PromoteStandbyNode | components/c4d-server/src/cluster.go:116-152 | terminates with the least rank no active node uses, at most the number of active nodes, given to some standby with a non-empty ID; none only when there is no standby or one has the empty ID |
| C4DServers.FreeRankKeepsDistinct | components/c4d-server/src/cluster.go:141-149 | promoting with that rank keeps active ranks distinct |
| C4DServers.BelowAllUsed | components/c4d-server/src/cluster.go:141-144 | pigeonhole bound behind the search's termination |
| C4DServers.ClusterManager.CheckAndStartProgram | components/c4d-server/src/cluster.go:261-321 | waits, refuses, or numbers the active nodes in URL order and starts them; Running only if none refused |
| ClusterLaws.TransitionTable | components/c4d-server/src/state.go:26-79 | besides Failed there are exactly four moves, written out |
| ClusterLaws.TakenExactlyWhen | components/c4d-server/src/server.go:371-384 | a failure is acted on exactly for registered entries in Running or Reconfiguring, and takes a reconfiguration with it exactly for active ones |
| ClusterLaws.LetInExactlyWhen | components/c4d-server/src/server.go:110-190 | a registration is let in exactly in Initializing or Running, for a registered node or while a counter leaves a role free |
| ClusterLaws.ReconnectRenews | components/c4d-server/src/server.go:134-157 | a reconnect rewrites the health record as heard of now, with the entry's status and no failures, and the session with the entry's status and rank and one reconnect more; nothing else changes |
| ClusterLaws.AdmissionRecords | components/c4d-server/src/server.go:164-212 | a new node is active before standby as the counters leave room, recorded as heard of now; Running is entered exactly when it completes the membership and nobody refuses |
| ClusterLaws.HeartbeatRenews | components/c4d-server/src/server.go:230-243 | a heartbeat sets the time of the record it finds and nothing else |
| ClusterLaws.ReportFails | components/c4d-server/src/server.go:386-396 | a report acted on fails that entry, lowers its role's counter and counts one failure unless it had failed |
| ClusterLaws.ReportRecords | components/c4d-server/src/server.go:276-288 | and leaves the health record failed, the sessions alone, and the server Reconfiguring by one counted transition |
| ClusterLaws.RemovalRemoves | components/c4d-server/src/cluster.go:193-215 | a removal acted on takes entry and record, lowers the role's counter, and leaves the server Reconfiguring |
| ClusterLaws.TickFailsExactly | components/c4d-server/src/monitor.go:40-63 | a tick fails exactly the nodes not heard of for longer than the time-out whose record does not say failed |
| ClusterLaws.SweepDropsExactly | components/c4d-server/src/server.go:423-446 | a sweep keeps exactly the records heard of within two time-outs, with their entries |
| ClusterLaws.SweepDisconnectsExactly | components/c4d-server/src/server.go:425-432 | and disconnects exactly the sessions of the others, as seen now |
| ClusterLaws.CleaningStepDropsExactly | components/c4d-server/src/session.go:97-107 | cleaning drops exactly the sessions disconnected and last seen more than two time-outs ago |
| ClusterLaws.AttemptPhases | components/c4d-server/src/cluster.go:26-114 | the phase each attempt of a goroutine ends in, first or retried, with three attempts in all |
| ClusterLaws.AttemptTransitions | components/c4d-server/src/cluster.go:27-31 | a transition to Reconfiguring is counted exactly by a first attempt met in Running, one to Running exactly by ending there from Reconfiguring |
| ClusterLaws.RetryKeepsPhase | components/c4d-server/src/cluster.go:33-37 | a retried attempt never takes the server to Reconfiguring, and leaves Running as it is unless it fails the server |
| ClusterLaws.ReconfiguresExactlyWhen | components/c4d-server/src/cluster.go:26-31 | a step takes another phase to Reconfiguring exactly from Running, by a report or removal of an entry or a refused first attempt |
| ClusterLaws.InFlightExactly | components/c4d-server/src/server.go:400-411 | reconfigurations are put in flight exactly by the loss of an active node, and go on exactly after a refusal in the first or second attempt |
| ClusterSafety.RegisterSafe | components/c4d-server/src/server.go:110-228 | registration keeps coverage, capacity, health agreement and transition counts |
| ClusterSafety.AdmitSafe | components/c4d-server/src/server.go:164-190 | an admitted ID is new to the registry, and capacity holds although only counters were consulted |
| ClusterSafety.StartSafe | components/c4d-server/src/cluster.go:261-321 | a start round keeps them |
| ClusterSafety.ReportSafe | components/c4d-server/src/server.go:371-396 | a failure report keeps them |
| ClusterSafety.RemoveSafe | components/c4d-server/src/cluster.go:193-222 | a removal keeps them |
| ClusterSafety.SweepSafe | components/c4d-server/src/server.go:423-446 | the dead-connection sweep keeps them |
| ClusterSafety.TickSafe | components/c4d-server/src/monitor.go:40-71 | a health tick keeps them although it never lowers a counter |
| ClusterSafety.CleanSessionsSafe | components/c4d-server/src/session.go:97-107 | cleaning sessions leaves every registered node's session as it was |
| ClusterSafety.PromotionSafe | components/c4d-server/src/cluster.go:56-75 | promotion keeps them although it is sized by true counts and books into drifting counters |
| ClusterSafety.AttemptSafe | components/c4d-server/src/cluster.go:40-106 | a whole round keeps them, marking by URL included |
| ClusterRuns.StepInvariant | components/c4d-server/src/server.go:60-94 | every atomic step of the server keeps the invariant |
| ClusterRuns.RunInvariant | components/c4d-server/src/server.go:60-94 | so does every interleaved run |
| ClusterFacts.PromoteAt | components/c4d-server/src/cluster.go:61-69 | closed form of the promotion loop: ranks a, a+2, a+4, ... in order of choice, nothing else moved |
| ClusterFacts.PromotedStatus | components/c4d-server/src/cluster.go:56-75 | exactly the chosen nodes move from standby to active |
| ClusterFacts.PoolDecides | components/c4d-server/src/cluster.go:56-85 | a round goes ahead exactly when active plus standby reach ActiveNodes, and never ends above it |
| ClusterTheorems.CapacityOverEveryRun | components/c4d-server/src/server.go:164-190 | in every reachable state the active entries are at most the counter and at most ActiveNodes, and likewise the standbys, despite counter drift |
| ClusterTheorems.SessionsCoverEveryRun | components/c4d-server/src/server.go:127-190 | in every reachable state nodes and health share keys, registered nodes have connected sessions, a failed health record means a failed node, new admissions overwrite nothing |
| ClusterTheorems.TransitionCounts | components/c4d-server/src/state.go:26-79 | in every reachable state Running was entered at most once more than Reconfiguring, and neither before the start |
| ClusterTheorems.FailedIsAbsorbing | components/c4d-server/src/server.go:134-150 | a failed node stays failed in every later state until its entry is deleted |
| ClusterTheorems.ReportsCountOnce | components/c4d-server/src/server.go:262-288 | two reports of one node, with anything in between: the first lowers its role's counter by one, the second lowers nothing |
| ClusterTheorems.StartPrecedesReconfiguration | components/c4d-server/src/cluster.go:261-321 | no run leaves Initializing except by a start round every active node accepted, with no reconfiguration attempt before it |
| ClusterTheorems.TriggerExactness | components/c4d-server/src/server.go:204-209 | the total hits ExpectedNodes exactly with both counters full, and the start is then sent exactly when the active counter has not drifted and StandbyNodes is not negative |
| ClusterTheorems.StartRanks | components/c4d-server/src/cluster.go:298-306 | a start round numbers the active nodes by their place in the sorted order |
| ClusterTheorems.StartRanksFollowUrls | components/c4d-server/src/cluster.go:298-306 | and that order is the URL order |
| StartUp.CanStartExactlyWhen | components/c4d-server/src/server.go:164-212 | before the start, some run whose start rounds come from registrations still reaches Running exactly when the active counter equals the number of active entries and StandbyNodes is not negative |
| StartUp.DriftsExactlyWhen | components/c4d-server/src/monitor.go:58-71 | before the start, a step makes the counter exceed the active entries exactly when it is a health tick that times out an active node |
| StartUp.TickEndsStartsExactlyWhen | components/c4d-server/src/monitor.go:58-71 | a health tick takes the possibility of a start away exactly when it times out an active node |
| StartUp.DriftNeverStarts | components/c4d-server/src/server.go:204-212 | once it has drifted, every continuation stays Initializing and drifted, whatever calls the start round |
| ClusterScenarios.StartUpTimeoutFromBoot | components/c4d-server/src/monitor.go:40-71 | a run from an empty server that can still start, and a health tick after which it cannot; a second tick counts the same failure again |
| ClusterTheorems.WedgedExactlyWhen | components/c4d-server/src/server.go:371-411 | a step brings the server to Reconfiguring with nothing in flight exactly when it fails or removes an entry that is not active while nothing is in flight; no attempt ever ends there |
| ClusterTheorems.UnwedgedExactlyWhen | components/c4d-server/src/server.go:400-411 | a step ends that state exactly when it fails or removes an active node |
| ClusterTheorems.WedgedUntilActiveLost | components/c4d-server/src/server.go:115-118 | the runs that stay there throughout, refusing every registration, are exactly those that lose no active node |
| ClusterScenarios.StandbyLossFromBoot | components/c4d-server/src/server.go:371-411 | a run from an empty server that ends there: two nodes register, the standby is reported |
| Reconfiguration.EveryRankHeldOnce | components/c4d-server/src/cluster.go:400-403 | n active nodes with distinct ranks below n hold every rank exactly once |
| Reconfiguration.PromotedBefore | components/c4d-server/src/cluster.go:61-69 | the stride-two ranks leave room for at most half the gap above the survivors |
| Reconfiguration.RankNeverRises | components/c4d-server/src/cluster.go:56-90 | for every tie-break no survivor's rank rises although promoted nodes may sort before it |
| Reconfiguration.OrderKept | components/c4d-server/src/cluster.go:88-90 | survivors keep their relative order |
| Reconfiguration.PrefixKept | components/c4d-server/src/cluster.go:88-90 | a survivor with no rank missing below it keeps exactly its rank |
| Reconfiguration.RoundOutcome | components/c4d-server/src/cluster.go:77-106 | a round fails the server exactly when the pool is short, is retried within capacity, or ends Running with ranks 0..ActiveNodes-1 |
| RankRuns.DistinctExactlyWhen | components/c4d-server/src/server.go:169-172 | while the server lives, a step keeps distinct active ranks distinct exactly unless it admits a node as active with a rank an active node holds and no start round follows at once |
| RankRuns.DistinctOverEveryRun | components/c4d-server/src/server.go:169-172 | so they are distinct after every run without such an admission, as compaction asks |
| ClusterScenarios.RanksCollideFromBoot | components/c4d-server/src/server.go:169-172 | a run from an empty server and an admission that gives a second active node the rank of the first: a sweep came between |
| Reconfiguration.CallOutcome | components/c4d-server/src/cluster.go:33-114 | every uninterrupted call ends within three rounds, Failed or Running with ActiveNodes nodes ranked from 0 |
| Reconfiguration.CallFailsExactlyWhen | components/c4d-server/src/cluster.go:77-113 | it fails exactly when some round found the pool short or all three rounds had a rejecting node |
| Reconfiguration.CallCompacts | components/c4d-server/src/cluster.go:26-114 | over a whole call no node active throughout gets a higher rank, order is kept, and nodes leave the active set only by failing |
| Reconfiguration.RejectionTakes | components/c4d-server/src/cluster.go:444-457 | for any names, a failed round takes from the active and standby nodes exactly those whose IDs are URLs of refusing nodes |
| Reconfiguration.RejectionShrinksExactlyWhen | components/c4d-server/src/cluster.go:444-460 | the pool the retry draws on shrinks exactly when such a URL names an active or standby node |
| Reconfiguration.MarkedExactlyWhen | components/c4d-server/src/cluster.go:446-449 | a node the commands went to is failed exactly when its ID is the URL of some refusing node, whatever it answered itself |
| Reconfiguration.RejectionShrinksPool | components/c4d-server/src/cluster.go:444-457 | where IDs are URLs, the nodes taken are exactly the refusing ones, and the pool strictly shrinks by their number |
| Reconfiguration.RejectionMarksNobody | components/c4d-server/src/cluster.go:446-447 | where no URL is an ID, a failed round marks nobody and the next one finds the same nodes |
| InlineCalls.CallIsRun | components/c4d-server/src/cluster.go:33-114 | an uninterrupted call is a run of attempt steps that takes its goroutine out of flight and leaves the state the call leaves |
| InlineCalls.RemovalIsRun | components/c4d-server/src/cluster.go:193-223 | removing an active node is a removal step followed by such a run |
| InlineCalls.RemovalOutcome | components/c4d-server/src/cluster.go:193-223 | after any run, such a removal ends Failed or Running with the active nodes ranked from 0 |
| Accounting.TickExactWhen | components/c4d-server/src/monitor.go:58-71 | a health tick keeps counters equal to true counts exactly when it times out no active and no standby node |
| Accounting.MarkExactWhen | components/c4d-server/src/cluster.go:444-457 | marking keeps them equal exactly when no rejecting URL is a standby's ID |
| Accounting.ReportExact | components/c4d-server/src/server.go:386-396 | a failure report keeps them equal |
| Accounting.SweepExact | components/c4d-server/src/server.go:435-445 | the sweep keeps them equal |
| Accounting.ExactOverEveryRun | components/c4d-server/src/server.go:164-190 | with IDs equal to URLs or disjoint from them, and no live node timed out, counters are the true counts after every step of every run |
| Accounting.ExactUntilStart | components/c4d-server/src/server.go:164-190 | before the start, whatever the names, counters are the true counts in every run in which no live node timed out |
| Accounting.TriggerFindsAllNodes | components/c4d-server/src/server.go:204-212 | after any such run, the registration that brings the total to ExpectedNodes finds exactly ActiveNodes active and StandbyNodes standby entries and never takes the waiting exit |
| ClusterScenarios.MixedNamesLoseAStandby | components/c4d-server/src/cluster.go:446-453 | a run from an empty server with exact counters, and a refused attempt after it that takes a standby down uncounted because its ID is the refusing node's URL |
| FailureCount.FailuresCountedExactlyWhen | components/c4d-server/src/monitor.go:62-64 | a step raises the counter of failed nodes by the number of entries that newly fail exactly unless it is a tick after the silence of a failed node, or a refusal that takes down a standby |
| FailureCount.TickCountsExactlyWhen | components/c4d-server/src/monitor.go:43-64 | a health tick counts rightly exactly when no entry that has failed already is silent still, because the health record is never set to failed |
| FailureCount.MarkCountsExactlyWhen | components/c4d-server/src/cluster.go:446-454 | marking counts rightly exactly when it names no standby |
| Hearing.RecordsSayLastHeard | components/c4d-server/src/server.go:230-243 | in every reachable state the record of a registered node carries the time of the last registration let in or heartbeat served, read off the run |
| TimedDetector.SilentNodesHaveFailed | components/c4d-server/src/monitor.go:26-63 | in every timed run a node that no registration or heartbeat was heard from for more than T + T/2 has failed |
| TimedDetector.SweepDeletesOnlyFailed | components/c4d-server/src/server.go:423-446 | so the 2T sweep deletes only failed entries and moves no counter |
| TimedDetector.TimersSpareTheLive | components/c4d-server/src/monitor.go:40-53 | after any run, a live node heard of by registrations or heartbeats with gaps that never exceed T is never failed or deleted by the timers |
| Supervisor.SupervisedExactlyWhen | components/compute-engine/src/main.rs:66-271 | supervision (one live shell, tracked, matching its record) survives a request exactly when waiting and killing work |
| Supervisor.SupervisedOverEveryRun | components/compute-engine/src/main.rs:66-271 | so at most one launched shell lives in every run of requests and exits in which they work |
| Supervisor.SupervisedFromStart | components/compute-engine/src/main.rs:66-271 | in particular since the supervisor was started |
| Supervisor.AppState.StartScript | components/compute-engine/src/main.rs:66-151 | start: refused while a shell runs; otherwise launch, record and track it only if it stays up |
| Supervisor.AppState.StopScript | components/compute-engine/src/main.rs:166-221 | stop: untracks, kills and records the end; nothing to stop is an error |
| Supervisor.AppState.GetStatus | components/compute-engine/src/main.rs:223-271 | status: notices an exit, records it and untracks |
| Supervisor.AppState.RestartScript | components/compute-engine/src/main.rs:456-463 | restart: a stop whose outcome is ignored, then a start |
| MonitorNode.Monitor.ChangeState | components/monitor/monitor.go:66-101 | each state's channel, heartbeat and sender changes; windows are cleared exactly on Restarting, the server is notified exactly on Failed |
| MonitorNode.Monitor.Start | components/monitor/monitor.go:119-159 | succeeds exactly when the first of the ten registrations is accepted |
| MonitorNode.StartsExactlyWhenFirstAccepted | components/monitor/monitor.go:124-158 | because lastErr is never cleared, a later success still ends Failed |
| NodeLaws.LaunchRecorded | components/compute-engine/src/main.rs:66-151 | every outcome of a start request: what is answered, tracked, recorded and alive |
| NodeLaws.StopRecorded | components/compute-engine/src/main.rs:166-221 | a stop records the end of the tracked shell, with its exit code when it was waited for |
| NodeLaws.StatusRecorded | components/compute-engine/src/main.rs:223-271 | a status request records the end of a tracked shell exactly when it has exited |
| NodeLaws.RestartRefusedExactlyWhen | components/monitor/monitor.go:236-246 | a restart is a bad request exactly outside Running, Restarting and Standby, and then changes nothing |
| NodeLaws.StartRefusedExactlyWhen | components/monitor/monitor.go:210-217 | a start is a bad request exactly outside Standby, and then changes nothing |
| NodeLaws.StopCommandExactlyWhen | components/monitor/monitor.go:228-234 | a stop succeeds exactly in Running or Restarting with a tracked process that can be stopped, and then leads to Standby; otherwise the state stays |
| NodeLaws.PostRestartExactlyWhen | components/monitor/agent.go:85-97 | the supervisor's restart succeeds exactly when request and answer get through and the shell could be launched |
| NodeLaws.TryEnds | components/monitor/agent.go:44-66 | which tries of startAgent succeed, which end it with an error, and that every other one is followed by the next |
| NodeLaws.LostTriesAreRetried | components/monitor/agent.go:44-66 | up to four lost requests are made up for by the next one |
| NodeLaws.SmoothRestartExactlyWhen | components/monitor/monitor.go:236-265 | over a smooth network a restart is accepted exactly in Standby, Restarting, or Running with a tracked process |
| NodeLaws.SmoothStartExactlyWhen | components/monitor/monitor.go:210-226 | and a start exactly in Standby |
| NodeLaws.StartEnds | components/monitor/monitor.go:119-159 | for every sequence of registration answers, whether Start ends in Standby, Failed or where it was |
| NodeLaws.StopChannelCloses | components/monitor/monitor.go:82-93 | leaving Running for Standby, and every restart, closes the senders' stop channel and makes a new one |
| NodeLaws.FailingStopsHeartbeat | components/monitor/monitor.go:95-97 | failing closes the heartbeat's channel and notifies the server once |
| NodeLaws.FailsExactlyWhen | components/monitor/monitor.go:197-325 | the events that fail a monitor, state by state |
| NodeLaws.RunsExactlyWhen | components/monitor/monitor.go:209-265 | the events that bring a monitor to Running |
| MonitorNode.CommandObeys | components/monitor/monitor.go:209-265 | from supervised shells every command leads to supervised shells; OK to start or restart means Running with one live tracked shell in the requested environment, OK to stop means Standby with none, BadRequest changes nothing, ServerError to start or restart means Failed |
| MonitorNode.CarryStartHolds | components/monitor/agent.go:37-70 | over a lossy network with exiting shells, success of the retry loop leaves exactly one live tracked shell with the requested environment |
| MonitorNode.PostRestartHolds | components/monitor/agent.go:85-97 | success of the supervisor's restart means the shell asked for, or none because it ended at once |
| MonitorNode.Monitor.HandleCommand | components/monitor/monitor.go:197-269 | does to state, supervisor and reply what the command specification says for everything the network and the shells may do; the inner state guards never fire |
| MonitorNode.Monitor.StartAgent | components/monitor/agent.go:37-70 | the five tries, one after the other; success means one live tracked shell with the requested environment |
| MonitorNode.Monitor.StopAgent | components/monitor/agent.go:72-83 | refused outside Running and Restarting; success leaves no shell alive or tracked |
| MonitorNode.Monitor.HandleRestart | components/monitor/handlers.go:34-69 | refused when Failed or unreadable, with nothing changed; otherwise rank and world size always change, OK means Running with the shell asked for or with none |
| MonitorNode.Monitor.HandleActivate | components/monitor/handlers.go:97-112 | accepted exactly in Standby; OK means Running with one live shell of the monitor's own rank, an error Failed |
| MonitorNode.Monitor.HandleRemove | components/monitor/handlers.go:114-127 | refused exactly in Failed and Standby; otherwise Standby whatever the stop did |
| MonitorNode.NextLifecycle | components/monitor/monitor.go:66-101 | every handler keeps the lifecycle invariant |
| MonitorNode.LifecycleOverEveryRun | components/monitor/monitor.go:66-325 | over every run: heartbeat on exactly in its three states, no channel closed twice, at most one sender on an open stop channel, Failed terminal and reported to the server |
| MonitorNode.NewMonitorLifecycle | components/monitor/monitor.go:66-325 | in particular over every run of a new monitor |
| EndToEnd.HostsStaySupervised | components/c4d-server/src/cluster.go:410-425 | whatever happens to the commands of a round, every host's shells stay supervised |
| EndToEnd.AcceptedNodesRun | components/c4d-server/src/cluster.go:225-259 | hosts carry commands out as the monitor specification says: with distinct URLs every node that answered OK tracks a shell launched with its rank and the common world size, whatever the others did, and runs it exactly when the shell has not exited by itself |
| EndToEnd.StartSuccessSeparatesUrls | components/c4d-server/src/cluster.go:323-366 | a start round all nodes accept proves their URLs distinct |
| EndToEnd.StartAgreement | components/c4d-server/src/cluster.go:271-320 | a successful start round: world size, ranks and the shell launched on every node agree; they all run exactly when none has exited |
| EndToEnd.RegistrationStartsInAgreement | components/c4d-server/src/server.go:204-221 | after any run, the registration that starts the program ends in the same agreement, with the same exception |
| EndToEnd.ReconfigurationAgreement | components/c4d-server/src/cluster.go:77-106 | after any run, an attempt nobody refuses numbers the nodes 0..ActiveNodes-1, leaves the server Running, and ends in agreement about what was launched exactly when the nodes active before and promoted have distinct URLs, about what runs exactly when besides no shell exits |
| EndToEnd.SmoothRoundSucceeds | components/c4d-server/src/cluster.go:399-464 | where nothing is lost and every host is in Standby, Restarting, or Running with a tracked process, every node of a restart round answers OK |
| EndToEnd.SmoothReconfiguration | components/c4d-server/src/cluster.go:77-106 | so after any run an attempt in flight that finds enough such nodes ends Running, in agreement exactly when their URLs are distinct |
| EndToEnd.SmoothStartSucceedsExactlyWhen | components/c4d-server/src/cluster.go:323-366 | where nothing is lost, every node of a start round answers OK exactly when all hosts are in Standby and none is shared |
| EndToEnd.SharedUrlBreaksAgreement | components/c4d-server/src/cluster.go:77-106 | a run from an empty server, and a round after it that both nodes behind one URL accept and no shell leaves, ending Running without agreement |
| Latency.WindowIsRecentHistory | components/monitor/agent.go:15-28 | for every sequence of logs and restarts the window is the last hundred counted latencies since the restart |
| Latency.HistoryGrows | components/monitor/handlers.go:26-29 | exactly the finished sends and receives of a rank add to its history, in milliseconds |
| Latency.MeanShares | components/monitor/agent.go:30-34 | the mean of one entry is the entry, and each further entry moves it by its share |
| Latency.TruncatedRank | components/monitor/agent.go:202-202 | the key of a rank is the 32-bit number congruent to it |
| Latency.MeanBetween | components/monitor/agent.go:30-34 | the reported mean lies between minimum and maximum of the window |
| Latency.LatencyWindows.UpdateLatencyWindow | components/monitor/agent.go:15-35 | slides the rank's window and returns its mean |
| Latency.LatencyWindows.HandleLogCCL | components/monitor/handlers.go:11-32 | only finished sends and receives count |
| Latency.LatencyWindows.AverageLatencies | components/monitor/agent.go:193-205 | every non-empty window is reported, under its rank truncated to 32 bits |
| Latency.ReportedMeans | components/monitor/agent.go:193-205 | a report speaks of exactly the truncations of the logged ranks, each with the mean of the recent history of such a rank |
| Latency.ReportsExactly | components/monitor/agent.go:193-205 | when all logged ranks fit 32 bits none shadows another |
| Latency.LatencyMatrix.UpdateLatency | components/c4d-server/src/metrics_handler.go:54-61 | changes the one in-range cell, ignores the rest |
| Latency.LatencyMatrix.ProcessMetrics | components/c4d-server/src/metrics_handler.go:22-34 | in any order, exactly the reported in-range cells of the reporting row change |
| Latency.Report | components/monitor/agent.go:176-225 | from raw logs to matrix: only with monitor and server Running, the supervisor's metrics fetched and an active sender, and only in its row, a cell becomes the mean of the last hundred latencies of a rank logged for that column |
| TaskDistribution.StepOrderly | components/task-distributor/src/main.py:19-116 | every lock-held section keeps the tables consistent |
| TaskDistribution.OrderlyOverEveryRun | components/task-distributor/src/main.py:156-168 | under every interleaving no task is held by two nodes, held tasks point back, available means holding nothing |
| TaskDistribution.OrderlyFromStart | components/task-distributor/src/main.py:19-168 | in particular in every run from empty tables |
| TaskDistribution.StepTouchesOnly | components/task-distributor/src/main.py:19-116 | a step changes no task and no node but those it is about |
| TaskDistribution.StepDoes | components/task-distributor/src/main.py:19-116 | and what it does to those |
| TaskDistribution.PointedExactlyWhen | components/task-distributor/src/main.py:37-95 | a step keeps every task that names a node held by it exactly unless it assigns to a node that has become busy since it was chosen, or registers a busy node again |
| TaskDistribution.PointedOverEveryRun | components/task-distributor/src/main.py:37-95 | so it holds over every run without such a step |
| TaskDistribution.RaceLosesATask | components/task-distributor/src/main.py:156-168 | a run from empty tables in which two creations choose one node and the first task ends up running on a node that does not hold it |
| TaskDistribution.UnregisterFailsHeldTask | components/task-distributor/src/main.py:45-57 | unregistering fails exactly the held task; the truthiness test never misses it |
| TaskDistribution.TaskDistributor.UnregisterNode | components/task-distributor/src/main.py:45-57 | fails and frees the held task, then forgets the node |
| TaskDistribution.TaskDistributor.GetAvailableNode | components/task-distributor/src/main.py:59-88 | some available node, or none exactly when there is none |
| TaskDistribution.TaskDistributor.GetNodeForTask | components/task-distributor/src/main.py:118-132 | the previous node while available, else any available one |
| TaskDistribution.TaskDistributor.AssignTaskToNode | components/task-distributor/src/main.py:90-95 | both tables and the status change together; an unknown task changes nothing |
| TaskDistribution.TaskDistributor.CreateTaskEndpoint | components/task-distributor/src/main.py:156-168 | uninterrupted: a fresh number, and either a node holding the running task or a pending task and untouched assignments |

## Left out

- C4DServers.C4DServer.ActOnFailure: the registry lock that stays locked after a refused transition is reported, but later handlers are not blocked by it; every run of the real server is among the model's runs.
- C4DServers.C4DServer.Register: MASTER_ADDR and MASTER_PORT are not carried, so no agreement on them is claimed; the start command takes them from the server's configuration and the restart command from its environment.
- ClusterTheorems.CapacityOverEveryRun: the counters are unbounded integers; the 32-bit wrap-around after two thousand million drifting promotions is not modelled.
- C4DServers.ClusterManager.ReconfigureCluster: the method is a call that nothing interrupts; with other handlers between its attempts it is a sequence of AdvanceReconfiguration calls, and CallIsRun connects the two.
- C4DServers.ClusterManager.RemoveNode: the cluster lock it already holds when a refusal makes the round lock it again is not modelled; other handlers between the attempts of its inline call are covered by the runs, not by the method.
- ServerParts.NodeRegistry.MarkNodeFailed: the error text stored in the health record.
- Supervisor.AppState.RestartScript: requests arriving in the two seconds between its stop and its start; as separate steps they are covered by SupervisedOverEveryRun.
- EndToEnd.AcceptedNodesRun: besides the commands of the round and shells that exit, nothing happens on the hosts; another request to a node during the round is not modelled.
- InlineCalls.RemovalIsRun: with a refusing node the code locks the cluster lock that removeNode already holds and does not go on; the run does.
- InlineCalls.RemovalOutcome: the same lock; the outcome is that of the calls in which no node refuses, and of all of them were the lock re-entrant.
- C4DServers.C4DServer.NotifyFailure: as ActOnFailure, and the error text and process id it stores.
- MonitorNode.Monitor.StartAgent: RANK and WORLD_SIZE travel as a pair of numbers, not as decimal strings.
- MonitorNode.LifecycleOverEveryRun: goroutines that re-read the channel fields after they were replaced are outside the atomic-handler assumption, and a sender is never removed from the count.
- Supervisor.SupervisedExactlyWhen: only the launched shells are counted, not the children that pkill is aimed at; the branch for a child without a process id is left out because a tracked child has never been waited on.
- TaskDistribution.TaskDistributor.GetNodeForTask: the distributor's lock is not re-entrant and `random` is not imported; the sections and the choice are modelled as intended.
- Races below the granularity of a handler or an attempt, including registration around its counter update and the references an attempt keeps to deleted entries.
- Stopping the server (`Stop`), which disconnects every session while the entries remain.
- The time and call site a state transition records, error texts, process ids in health records, what a failure notification says.
- getUsableNodes, notifyNodesOfConfig, CountUsableNodes and GetNode, which nothing calls.
- Transport, JSON, routing and logging; the mutex timing diagnostics; the metrics collector, the versioned store and the failure servers, which would only add easy members.
- Training scripts, models, data preparation and deployment files.
- `stop_script_advanced`, system metrics and the environment endpoint of the compute engine.
- Failure-probability weights of the task distributor: any available node may be chosen.
