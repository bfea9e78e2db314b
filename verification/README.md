# Verification of the lifecycle repository's hard core

This project models the health monitor library (deadline, heartbeat and logic monitors, their worker and
their owner, in Rust, with the C++ handle layer above the deadlines), the configuration compiler and the
SARIF normaliser of the Python tooling, and two C++ cores: the signal-safe log buffer and the life cycle
manager. `dafny verify dfyconfig.toml` checks all of it.

| files | what they model |
|---|---|
| `DeadlineState`, `DeadlineMonitor`, `DeadlineProtocol` | packed deadline words, the monitor that updates them, and the protocol of producers and worker over them |
| `HeartbeatMonitor`, `LogicMonitor` | packed heartbeat and state words, their monitors, and what they mean for the history of beats and requests |
| `Worker`, `Supervision` | the monitoring loop, and the whole system of monitors, threads, clock and worker |
| `HealthMonitor` | who owns which monitor, from building to starting |
| `DeadlineHandles`, `DeadlineObjects` | the C++ guard objects as client steps, and as classes that take those steps |
| `Json`, `ConfigMerge`, `ConfigDefaults`, `ConfigFixpoint`, `CycleCheck` | layered defaults, migration, preprocessing, and the cycle check |
| `SarifOrder`, `Sarif`, `SarifMeaning`, `SarifCanonical` | the normalisation of SARIF runs, what their references mean (sections 3.4.5, 3.27.6 and 3.52 of SARIF 2.1.0), and when permuted runs have one normal form |
| `SignalSafeLog`, `LifeCycleManager` | the log buffer, and the two-thread life cycle of an application |

Atomic operations are single steps, clocks are monotone inputs, and a run is any sequence of enabled steps.
Packed 64-bit words are natural numbers whose fields are read with division and remainder by powers of two.

Hypotheses that are stated in the contracts: `now + max` of a deadline fits in 32 bits, heartbeat timestamps
fit in 62 bits (in the counterexamples, the start offset plus a few times `min`), heartbeat minima are positive in
the results on the counter (the builder demands it of every positive cycle), evaluations come at most a cycle after
the start of the health monitor or the evaluation before, and one pass of the worker is shorter than
the interval (for the liveness of notifications only).

## What the code does and its documentation does not say

- An evaluation of a deadline loads the word and reads the clock in two steps. A stop in time between the two
  is reported as an overrun exactly in the cases of `FalseAlarmIffStoppedBetween`, and then ends the worker
  although nothing is wrong (`EndsWithoutViolationIff`). The message of the debug
  assertion in the evaluation says the opposite of its condition; `LowBits` shows that it never fires.
- A beat reads its clock and updates the word in two steps, so an evaluation can land between them. The builder
  check `2 * min > cycle` keeps the counter from saturating only for beats without such a delay
  (`NeverSaturatesIff`), and does not exclude `MultipleHeartbeats` on beats in range: cycle plus delay below
  `min` is what does (`NeverSpuriouslyMultipleIff`). Beats sent before the health monitor starts share the first
  window (`NoMultipleOnSpacedIff`, `EarlyBeatsExample`).
- The worker records the instant of a notification before it calls `notify_alive`, so the supervisor cycle separates
  the records (`NotificationsAreSpaced`) and the calls only up to that gap (`CallsAreSpaced`).
- A failed start of the health monitor loses the handles it had collected (`FailedStartIffs`).
- The cycle check rejects a component that depends on a run target at odd levels of consecutive components only
  (`AcceptsIffRuleAtOddLevels`, `RunTargetBelowComponentExample`).
- The merge of defaults is not associative, and preprocessing not idempotent, when a plain value hides a
  dictionary (`MergeAssociativeIff`, `PreprocessIsIdempotentIff`, `NotIdempotentExample`).
- Only fields named `artifactLocation` are rewritten by the normaliser; an index in another artifact location, such
  as `analysisTarget`, can name another file afterwards (`MeaningKeptIff`, `StrayChangesArtifact`). Rule indices of
  results are rewritten by the driver's table whatever tool component they name (`ExtensionRuleChanges`), and rule
  references outside results are not rewritten at all. For the same references the normal form depends on the order
  of the input tables (`NormalizationIsCanonicalIff`).
- The defaulted move constructor of a started C++ `Deadline` copies its flag and takes its handle
  (`DisciplineIffInPlace`).
- The flush of the log buffer documents success as "the whole message was written"; that is so exactly when
  the message fits (`Log`).
- Destroying a life cycle manager that never ran an application never finishes: the handler ends the process, or
  the join waits for ever (`DestructorFinishesIff`). A second call of `run` starts with stop already requested
  (`StopRequestsSeenByApplications`).

## Model

| member | source | states |
|---|---|---|
| `Supervision.ReportsIffApparent` | score/health_monitor/src/rust/worker.rs:49-77 | what the worker computes from the packed words of a monitor is a report if and only if the history it could see (for a deadline: at the load of its word) is wrong at the clock it read, for deadline, heartbeat and logic monitors |
| `Supervision.ApparentIff` | score/health_monitor/src/rust/deadline/deadline_monitor.rs:264-293 | where nothing is wrong at the clock read, something is apparent exactly when a stop in time landed between load and clock read of a deadline and its limit passed; without a start or stop in between, apparent and wrong are the same |
| `Supervision.InvPreserved` | score/health_monitor/src/rust/worker.rs:49-90 | every step of application threads, clock and worker keeps the system invariant |
| `Supervision.AliveSafety` | score/health_monitor/src/rust/worker.rs:49-90 | over every interleaving, each `notify_alive` was sent by an iteration in which no monitor had a violation when its word was loaded nor one the clock read after it could show, and notifications are recorded more than the supervisor cycle apart, each call made after its record and before the next one |
| `Supervision.EndedIsSilent` | score/health_monitor/src/rust/worker.rs:126-137 | the thread ends by itself only on a violation or on a stop in the gap of a deadline, and nothing is notified after it has ended |
| `Supervision.EndsWithoutViolationIff` | score/health_monitor/src/rust/worker.rs:49-90 | an iteration in which no monitor was in violation at its own clock read ends the thread if and only if a stop in time landed between the load and the clock read of some deadline and its limit passed |
| `Supervision.UndisturbedEndIffViolation` | score/health_monitor/src/rust/worker.rs:49-90 | where no deadline is started or stopped between its load and its clock read, an iteration ends the thread if and only if some monitor was in violation |
| `Supervision.ViolationSilences` | score/health_monitor/src/rust/worker.rs:49-90 | once a monitor is beyond repair while the worker sleeps, no notification is ever sent again, whatever the threads do |
| `Supervision.ViolationAllowsOneMore` | score/health_monitor/src/rust/worker.rs:49-90 | whatever the worker is doing when a monitor gets beyond repair, at most one more notification is sent |
| `Worker.MonitoringLogic.constructor` | score/health_monitor/src/rust/worker.rs:36-46 | the last notification is the instant of creation |
| `Worker.MonitoringLogic.Run` | score/health_monitor/src/rust/worker.rs:49-90 | one pass notifies exactly when no monitor reported and a notification is due; it asks to go on exactly when nothing was reported |
| `Worker.MonitoringLogic.ThreadLoop` | score/health_monitor/src/rust/worker.rs:111-143 | the loop records and calls exactly the notifications of its iterations up to the first error, and asks for sleeps of the interval less the time of the pass before |
| `Worker.NotificationsAreSpaced` | score/health_monitor/src/rust/worker.rs:79-83 | the recorded instants of consecutive notifications are strictly more than the supervisor cycle apart, the first from the creation of the logic |
| `Worker.CallsAreSpaced` | score/health_monitor/src/rust/worker.rs:81-82 | consecutive calls of `notify_alive` are more than the supervisor cycle apart, less the longest time between a record and its call |
| `Worker.WakesAreSpaced` | score/health_monitor/src/rust/worker.rs:122-137 | wake-ups are at least one interval apart when every pass is shorter than the interval |
| `Worker.NotifiesWithin` | score/health_monitor/src/rust/worker.rs:79-83 | K + 1 error-free paced iterations notify at least once, for a supervisor cycle of K intervals |
| `Worker.NotifiesAgain` | score/health_monitor/src/rust/health_monitor.rs:131-139 | the same after any number of iterations, K being whole by the builder check |
| `DeadlineState.DefaultReadsBack` | score/health_monitor/src/rust/deadline/deadline_state.rs:88-95 | the initial word reads as stopped, not running, no underrun, timestamp 0 |
| `DeadlineState.RunningReadsBack` | score/health_monitor/src/rust/deadline/deadline_state.rs:36-64 | the setters build the started and the underrun word, and a started word reads back as running with its timestamp |
| `DeadlineState.UnderrunReadsBack` | score/health_monitor/src/rust/deadline/deadline_state.rs:36-64 | an underrun word reads back as underrun with its timestamp |
| `DeadlineMonitor.DeadlineMonitorInner.constructor` | score/health_monitor/src/rust/deadline/deadline_monitor.rs:297-315 | for any hash-map order, tags and slots are in bijection and every slot starts stopped |
| `DeadlineMonitor.DeadlineMonitorInner.GetDeadline` | score/health_monitor/src/rust/deadline/deadline_monitor.rs:325-339 | an unknown tag and a tag in use are refused; otherwise the flag is claimed and nothing else changes |
| `DeadlineMonitor.DeadlineMonitorInner.ReleaseDeadline` | score/health_monitor/src/rust/deadline/deadline_monitor.rs:317-323 | exactly that tag becomes free |
| `DeadlineMonitor.DeadlineMonitorInner.StartInternal` | score/health_monitor/src/rust/deadline/deadline_monitor.rs:156-179 | a start rewrites its own word only, and is refused exactly when the word is marked running or underrun |
| `DeadlineMonitor.DeadlineMonitorInner.StopInternal` | score/health_monitor/src/rust/deadline/deadline_monitor.rs:181-226 | a stop rewrites its own word only: stopped when in time, marked underrun when early, left running when late |
| `DeadlineMonitor.DeadlineMonitorInner.Evaluate` | score/health_monitor/src/rust/deadline/deadline_monitor.rs:264-293 | reports the errors of all slots in order |
| `DeadlineProtocol.InvPreserved` | score/health_monitor/src/rust/deadline/deadline_monitor.rs:156-226 | every atomic step keeps word and session in agreement with the history |
| `DeadlineProtocol.WordRefinesHistory` | score/health_monitor/src/rust/deadline/deadline_monitor.rs:263-293 | word loaded in one state and clock read in any later state give exactly the verdict of the history at the load |
| `DeadlineProtocol.LowBits` | score/health_monitor/src/rust/deadline/deadline_monitor.rs:268-277 | the low four bits are 1, 3 or 11 in every reachable state, so the assertion in the evaluation never fires |
| `DeadlineProtocol.StopIsSafe` | score/health_monitor/src/rust/deadline/deadline_monitor.rs:181-226 | whenever a stop updates the word it finds it running and its 32-bit subtraction does not wrap |
| `DeadlineProtocol.StartRefusedIffFailed` | score/health_monitor/src/rust/deadline/deadline_monitor.rs:156-179 | a start is refused if and only if an earlier session was stopped outside its range |
| `DeadlineProtocol.ViolationIsPermanent` | score/health_monitor/src/rust/deadline/deadline_monitor.rs:156-293 | a violation is reported with its kind by every later evaluation and refuses every later start |
| `DeadlineProtocol.FalseAlarmIffStoppedBetween` | score/health_monitor/src/rust/deadline/deadline_monitor.rs:266-279 | where nothing is wrong at the clock read, an evaluation alarms if and only if a stop in time lands between its load and its clock read and the limit passes meanwhile |
| `DeadlineProtocol.FalseAlarmExample` | score/health_monitor/src/rust/deadline/deadline_monitor.rs:266-279 | a concrete run with such a false alarm |
| `DeadlineHandles.InvPreserved` | score/health_monitor/src/cpp/deadline/deadline_monitor.cpp:75-155 | every client step that does not move a started deadline keeps owners, guards and sessions in agreement |
| `DeadlineHandles.GuardDiscipline` | score/health_monitor/src/cpp/deadline/deadline_monitor.cpp:99-155 | over every such use no start meets an open session, every stop meets one with its word marked running, each start but the current one has exactly one stop, a tag is in use exactly while one live deadline owns it, and every guard can reach its deadline |
| `DeadlineHandles.StopFindsRunningWord` | score/health_monitor/src/rust/deadline/deadline_monitor.rs:190-195 | whenever the C++ layer stops a deadline the word is marked running when it is updated and the subtraction does not wrap |
| `DeadlineHandles.EveryTagRunsTheProtocol` | score/health_monitor/src/rust/deadline/deadline_monitor.rs:156-226 | over every such use of the C++ objects, what happens to the word of each tag is a run of the deadline protocol of `DeadlineProtocol` |
| `DeadlineHandles.StartSucceedsIffNeverFailed` | score/health_monitor/src/cpp/deadline/deadline_monitor.cpp:99-118 | a start hands out a guard if and only if no earlier session of the tag was stopped outside its range |
| `DeadlineHandles.AllReleased` | score/health_monitor/src/cpp/deadline/deadline_monitor.cpp:94-97 | with all objects gone, every start has had its stop and every tag is free |
| `DeadlineHandles.DisciplineIffInPlace` | score/health_monitor/src/cpp/deadline/deadline_monitor.cpp:90-118 | a step keeps the discipline if and only if it does not move a started deadline; such a move leaves an orphan and strands the guard |
| `DeadlineHandles.OrphanStays` | score/health_monitor/src/cpp/deadline/deadline_monitor.cpp:94-97 | an orphan stays one in every continuation, so its destructor never passes its precondition |
| `DeadlineObjects.GetDeadline` | score/health_monitor/src/cpp/deadline/deadline_monitor.cpp:75-88 | is the corresponding client step; fails exactly for an unknown tag or one in use |
| `DeadlineObjects.RustSide.DeadlineStart` | score/health_monitor/src/rust/deadline/deadline_monitor.rs:156-179 | clock read and word update of a start are the steps of the deadline protocol, and its answer is that of the word |
| `DeadlineObjects.RustSide.DeadlineStop` | score/health_monitor/src/rust/deadline/deadline_monitor.rs:181-226 | clock read and word update of a stop are the steps of the deadline protocol |
| `DeadlineObjects.Deadline.Start` | score/health_monitor/src/cpp/deadline/deadline_monitor.cpp:99-118 | is the client step; refuses while a guard exists, and hands out a guard exactly when the word accepts the start |
| `DeadlineObjects.Deadline.Move` | score/health_monitor/src/cpp/deadline/deadline_monitor.cpp:90-92 | is the client step of the defaulted move constructor: handle taken over, flag copied |
| `DeadlineObjects.Deadline.Destroy` | score/health_monitor/src/cpp/deadline/deadline_monitor.cpp:94-97 | is the client step: the tag becomes free if the object still owns it |
| `DeadlineObjects.DeadlineHandle.Stop` | score/health_monitor/src/cpp/deadline/deadline_monitor.cpp:124-137 | is the client step: Rust is called the first time only |
| `DeadlineObjects.DeadlineHandle.Move` | score/health_monitor/src/cpp/deadline/deadline_monitor.cpp:139-144 | is the client step: the moved-from guard is stopped and empty |
| `DeadlineObjects.DeadlineHandle.Destroy` | score/health_monitor/src/cpp/deadline/deadline_monitor.cpp:146-155 | is the client step: stops if need be and lets the deadline start again |
| `HeartbeatMonitor.HeartbeatMonitorInner.constructor` | score/health_monitor/src/rust/heartbeat/heartbeat_monitor.rs:228-239 | an empty word and no start timestamp |
| `HeartbeatMonitor.HeartbeatMonitorInner.Heartbeat` | score/health_monitor/src/rust/heartbeat/heartbeat_monitor.rs:241-251 | the word gets the new timestamp and a saturating count; nothing else changes |
| `HeartbeatMonitor.HeartbeatMonitorInner.Evaluate` | score/health_monitor/src/rust/heartbeat/heartbeat_monitor.rs:105-167 | takes and resets the word, and yields error and next start timestamp of that snapshot |
| `HeartbeatMonitor.BeatsAreConserved` | score/health_monitor/src/rust/heartbeat/heartbeat_state.rs:44-60 | every beat is in exactly one window or still pending, and the word holds the last pending beat and their number up to saturation |
| `HeartbeatMonitor.SnapshotVerdict` | score/health_monitor/src/rust/heartbeat/heartbeat_monitor.rs:105-167 | the verdict on a word is the verdict on the beats it summarises |
| `HeartbeatMonitor.VerdictsRefineHistory` | score/health_monitor/src/rust/heartbeat/heartbeat_monitor.rs:105-167 | the monitor is error-free if and only if every window holds at most one beat, each beat is in range of the previous one and no empty window is past the maximum; 0 is never an accepted beat |
| `HeartbeatMonitor.FirstErrorKind` | score/health_monitor/src/rust/heartbeat/heartbeat_monitor.rs:129-165 | the first error has the kind its window deserves |
| `HeartbeatMonitor.CounterIsExactIff` | score/health_monitor/src/rust/heartbeat/heartbeat_state.rs:56-59 | on beats at least min apart, of which the first may come before the health monitor starts, the counter is exact and below saturation if and only if cycle plus delay, and cycle plus the lead of the first beat, are below twice min |
| `HeartbeatMonitor.NoMultipleOnSpacedIff` | score/health_monitor/src/rust/heartbeat/heartbeat_monitor.rs:129-135 | `MultipleHeartbeats` is never raised on such beats if and only if both sums are below min |
| `HeartbeatMonitor.EarlyBeatsExample` | score/health_monitor/src/rust/worker.rs:121-134 | beats 10 ms apart sent before the health monitor starts are flagged as multiple, although the cycle is half of min |
| `HeartbeatMonitor.NeverSaturatesIff` | score/health_monitor/src/rust/heartbeat/heartbeat_monitor.rs:66-74 | whenever the health monitor starts and for a positive cycle, the counter never saturates on beats in range if and only if cycle plus update delay is below twice min; the builder check is this condition without delay |
| `HeartbeatMonitor.MultipleIfLong` | score/health_monitor/src/rust/heartbeat/heartbeat_monitor.rs:129-135 | whenever a positive cycle plus update delay reaches min, beats in range exist that are flagged as multiple |
| `HeartbeatMonitor.NeverSpuriouslyMultipleIff` | score/health_monitor/src/rust/heartbeat/heartbeat_monitor.rs:241-251 | whenever the health monitor starts and for a positive cycle, `MultipleHeartbeats` is never raised on beats in range if and only if cycle plus the delay between clock read and update of a beat is below min |
| `HeartbeatMonitor.MissingBeatIsReportedInTime` | score/health_monitor/src/rust/heartbeat/heartbeat_monitor.rs:137-150 | a missing beat is never reported early, and is reported by any evaluation at least 2 ms past the limit |
| `Common.TwoPartClockWithinOneMilli` | score/health_monitor/src/rust/heartbeat/heartbeat_monitor.rs:109-112 | offset plus elapsed, each truncated, never exceeds the clock of a beat and lags it by at most 1 ms |
| `LogicMonitor.FieldsReadBack` | score/health_monitor/src/rust/logic/logic_state.rs:29-69 | each setter is read back by its getter and leaves the other field alone |
| `LogicMonitor.Build` | score/health_monitor/src/rust/logic/logic_monitor.rs:102-157 | accepts exactly the non-empty closed graphs with a defined initial state, for any hash-map order, and keeps tags and targets |
| `LogicMonitor.LogicMonitorInner.FindIndexByTag` | score/health_monitor/src/rust/logic/logic_monitor.rs:238-246 | the first index of a tag, or an error exactly when there is none |
| `LogicMonitor.LogicMonitorInner.Transition` | score/health_monitor/src/rust/logic/logic_monitor.rs:248-282 | succeeds exactly when all requests so far form a path of the graph; the first to leave it is an invalid transition, every later one an invalid state |
| `LogicMonitor.LogicMonitorInner.State` | score/health_monitor/src/rust/logic/logic_monitor.rs:284-297 | the last requested tag, or the initial one, exactly when the requests form a path |
| `LogicMonitor.LogicMonitorInner.Evaluate` | score/health_monitor/src/rust/logic/logic_monitor.rs:212-218 | reports an invalid transition exactly when the requests so far have left the graph |
| `LogicMonitor.TransitionFollowsWalk` | score/health_monitor/src/rust/logic/logic_monitor.rs:248-282 | one transition keeps the word in step with the walk through the graph |
| `LogicMonitor.MonitorRefinesGraph` | score/health_monitor/src/rust/logic/logic_monitor.rs:102-157 | for any order and any requests the index stays in range, `state` returns the last requested tag exactly when the requests form a path, and otherwise every later call fails |
| `HealthMonitor.HealthMonitor.constructor` | score/health_monitor/src/rust/health_monitor.rs:142-148 | all configured monitors are available |
| `HealthMonitor.HealthMonitor.GetMonitor` | score/health_monitor/src/rust/health_monitor.rs:241-259 | hands out an available monitor once and leaves the others alone |
| `HealthMonitor.HealthMonitor.StartInternal` | score/health_monitor/src/rust/health_monitor.rs:343-363 | is the specified start step; the handle vector never overflows |
| `HealthMonitor.CollectMonitors` | score/health_monitor/src/rust/health_monitor.rs:291-323 | collects up to the first container that cannot give a handle, and puts that one back |
| `HealthMonitor.StartSucceedsIffAllTaken` | score/health_monitor/src/rust/health_monitor.rs:343-363 | a start succeeds if and only if every monitor was handed out and no handle is lost, and then has one handle of each |
| `HealthMonitor.ContainersOnlyAdvance` | score/health_monitor/src/rust/health_monitor.rs:241-323 | no container becomes available again or comes back once gone |
| `HealthMonitor.OwnershipIsConserved` | score/health_monitor/src/rust/health_monitor.rs:241-363 | over any calls each monitor is handed out at most once, a start succeeds at most once, and it collects exactly one handle per monitor |
| `HealthMonitor.CanStillStartIff` | score/health_monitor/src/rust/health_monitor.rs:343-363 | starting stays possible if and only if no handle has been lost |
| `HealthMonitor.FirstMetDecides` | score/health_monitor/src/rust/health_monitor.rs:291-323 | after a failed start the health monitor can still be started if and only if the first container met was not collectable |
| `HealthMonitor.FailedStartIffs` | score/health_monitor/src/rust/health_monitor.rs:343-349 | a failed start leaves starting possible for every order of the hash maps if and only if no monitor of the first non-empty map was handed out, and is final for every order if and only if all of them were |
| `HealthMonitor.FailedStartDependsOnOrderExample` | score/health_monitor/src/rust/health_monitor.rs:343-349 | with one of two deadline monitors handed out, the outcome depends on the hash map |
| `ConfigMerge.DictMerge` | scripts/config_mapping/lifecycle_config.py:192-222 | the merge, for any iteration order of the upper dictionary |
| `ConfigMerge.MergeIsUpperIffCovered` | scripts/config_mapping/lifecycle_config.py:192-222 | a lower layer is invisible if and only if the upper one covers it |
| `ConfigMerge.MergeAbsorbs` | scripts/config_mapping/lifecycle_config.py:192-222 | merge(merge(a, b), b) = merge(a, b) for all dictionaries |
| `ConfigMerge.MergeAssociativeIff` | scripts/config_mapping/lifecycle_config.py:192-222 | the merge is associative if and only if no plain value hides a dictionary between two others |
| `ConfigMerge.LayersCoverIff` | scripts/config_mapping/lifecycle_config.py:192-222 | the same condition is exactly when the lowest layer changes nothing below the other two |
| `ConfigMerge.SameShapeIsUnshadowed` | scripts/config_mapping/lifecycle_config.py:192-222 | layers that agree on which paths are dictionaries meet that condition |
| `ConfigMerge.ShadowingExample` | scripts/config_mapping/lifecycle_config.py:192-222 | three layers on which the merge is not associative |
| `ConfigMerge.MostSpecificWins` | scripts/config_mapping/lifecycle_config.py:91-93 | the most specific layer wins wherever its value is plain or its key does not merge, and no key is lost or invented |
| `ConfigDefaults.MigrateReadyRecoveryAction` | scripts/config_mapping/lifecycle_config.py:133-169 | the migration, with its failing cases |
| `ConfigDefaults.MigrationDeclares` | scripts/config_mapping/lifecycle_config.py:133-169 | the deprecated key is gone, the retry keys are what was declared before (explicit first), every other key is untouched, and migrating again changes nothing |
| `ConfigDefaults.FileStateIdempotent` | scripts/config_mapping/lifecycle_config.py:118-130 | filling in file-state defaults twice is filling them in once, and touches `ready_condition` only |
| `ConfigDefaults.CleanIsStable` | scripts/config_mapping/lifecycle_config.py:224-262 | `alive_supervision` comes back and goes again: cleaned properties are stable |
| `ConfigDefaults.PreprocessDefaults` | scripts/config_mapping/lifecycle_config.py:172-299 | the preprocessing, for any iteration order |
| `ConfigDefaults.PartIsStable` | scripts/config_mapping/lifecycle_config.py:181-190 | a filled part is stable under the defaults if and only if the layers do not shadow each other |
| `ConfigDefaults.PreprocessIsIdempotent` | scripts/config_mapping/lifecycle_config.py:172-299 | preprocessing its own output gives it again whenever the layers do not shadow each other |
| `ConfigFixpoint.PropertiesKeptIff` | scripts/config_mapping/lifecycle_config.py:224-262 | cleaned properties survive another filling and cleaning if and only if they cover the defaults, `alive_supervision` excepted where the application is not supervised |
| `ConfigFixpoint.FixpointIffCovers` | scripts/config_mapping/lifecycle_config.py:172-299 | preprocessing its own output gives it again if and only if every part of the output covers the built-in defaults of that part, what is dropped from unsupervised applications excepted |
| `ConfigFixpoint.PropertiesCoverIff` | scripts/config_mapping/lifecycle_config.py:224-262 | the cleaned properties of a component cover the defaults expected of them if and only if the three input layers do not shadow each other, `alive_supervision` set aside for an unsupervised application |
| `ConfigFixpoint.PreprocessIsIdempotentIff` | scripts/config_mapping/lifecycle_config.py:172-299 | preprocessing is idempotent on a configuration if and only if, part by part, the built-in defaults, its migrated defaults and its own entries do not shadow each other |
| `ConfigFixpoint.NotIdempotentExample` | scripts/config_mapping/lifecycle_config.py:172-299 | a configuration over the built-in defaults on which a second preprocessing changes the output |
| `ConfigDefaults.BuiltInDefaultsAreComplete` | scripts/config_mapping/lifecycle_config.py:23-80 | the built-in defaults meet the hypothesis of the results around this row |
| `ConfigDefaults.RetryResolution` | scripts/config_mapping/lifecycle_config.py:133-247 | each retry value resolves as component explicit, component deprecated, defaults explicit, defaults deprecated, built-in, and the deprecated key never survives |
| `CycleCheck.CycleChecker.GetProcessDependencies` | scripts/config_mapping/lifecycle_config.py:516-593 | terminates, restores both ancestor stacks, succeeds exactly when the search accepts, returns each reachable component exactly once, and raises only errors that a real cycle or unresolved name justifies |
| `CycleCheck.CheckCyclicDependencies` | scripts/config_mapping/lifecycle_config.py:506-599 | no error if and only if every run target and the fallback are accepted; any error is justified from one of them |
| `CycleCheck.AcceptsIffResolvedAndAcyclic` | scripts/config_mapping/lifecycle_config.py:516-593 | accepts exactly the resolved acyclic dependencies, diamonds included |
| `CycleCheck.InnerAtOddLevels` | scripts/config_mapping/lifecycle_config.py:536-575 | the loop that admits components only reads the lists at odd levels of consecutive components |
| `CycleCheck.AcceptsIffRuleAtOddLevels` | scripts/config_mapping/lifecycle_config.py:516-593 | accepts exactly the roots from which every reachable name exists, no walk repeats a node, and no component at an odd level depends on a run target |
| `CycleCheck.AcceptsIffKnownAndAcyclic` | scripts/config_mapping/lifecycle_config.py:531-575 | if no component depends on a run target, accepts exactly the roots from which every reachable name exists and no walk repeats a node |
| `CycleCheck.RankDecreases` | scripts/config_mapping/lifecycle_config.py:516-593 | acceptance gives a rank that strictly decreases along every reachable dependency |
| `CycleCheck.CycleIsReal` | scripts/config_mapping/lifecycle_config.py:516-560 | a node met on the ancestor stacks closes a real cycle |
| `CycleCheck.RunTargetBelowComponentExample` | scripts/config_mapping/lifecycle_config.py:540-575 | the same dependency of a component on a run target is accepted at one level and rejected at the other |
| `SarifOrder.SortedOrderIsUnique` | quality/static_analysis/codeql_lint.py:696-716 | there is exactly one stable sorted order of the keys |
| `SarifOrder.SortedOrder` | quality/static_analysis/codeql_lint.py:696-699 | a stable sorted permutation of the indices |
| `Sarif.NormalizeSarifRun` | quality/static_analysis/codeql_lint.py:693-727 | fails, at the sort or at the failing lookup, exactly when a key is no string or an index has no entry; otherwise gives the run sorted and rewritten |
| `Sarif.RewriteComposes` | quality/static_analysis/codeql_lint.py:730-744 | rewriting twice is rewriting once by the composed index map |
| `Sarif.TryRewriteIff` | quality/static_analysis/codeql_lint.py:730-744 | no lookup of the remapping fails if and only if every index it looks up is in the table |
| `SarifMeaning.RemapKeepsMeaningIff` | quality/static_analysis/codeql_lint.py:730-744 | a remapped value denotes the same artifacts and rules, wherever its artifact locations and rule references stand, if and only if each of them that is not rewritten as what it is finds an equal entry at its index |
| `SarifMeaning.RuleKeptIff` | quality/static_analysis/codeql_lint.py:717-722 | an index of a result keeps its rule if and only if the reference names the driver or the sort leaves the index in place |
| `SarifMeaning.MeaningKeptIff` | quality/static_analysis/codeql_lint.py:693-744 | every result keeps its rules and artifacts, and everything else its artifacts and rules, if and only if no result that names another tool component has its index moved and no reference that is not rewritten changes its target by the sort |
| `SarifMeaning.NoStraysKeepsMeaning` | quality/static_analysis/codeql_lint.py:730-744 | a run keeps its meaning when its results name rules of the driver, its locations without URI all stand under `artifactLocation`, and nothing else refers to the rules of the driver by index |
| `SarifMeaning.StrayChangesArtifact` | quality/static_analysis/codeql_lint.py:730-744 | a run whose `analysisTarget` names another file after normalisation |
| `SarifMeaning.ExtensionRuleChanges` | quality/static_analysis/codeql_lint.py:717-722 | a result that refers to a rule of an extension refers to another one after normalisation |
| `SarifCanonical.RelabelIsInvisibleIff` | quality/static_analysis/codeql_lint.py:730-744 | a value whose references follow a permutation of the tables remaps to the same value if and only if every reference that is not rewritten as what it is has an index the permutation leaves alone |
| `SarifCanonical.NormalizationIsCanonicalIff` | quality/static_analysis/codeql_lint.py:693-744 | runs that differ only by permuted tables with distinct keys, all references following, normalise to equal runs if and only if the permutation leaves the references alone that are not rewritten as what they are |
| `SarifCanonical.PermutedTargetIsNotCanonical` | quality/static_analysis/codeql_lint.py:730-744 | two such runs with different normal forms |
| `Sarif.NormalizationIsIdempotent` | quality/static_analysis/codeql_lint.py:693-744 | normalising again succeeds and changes nothing |
| `SignalSafeLog.IntTextReadsBack` | score/launch_manager/src/daemon/src/common/signal_safe_log.hpp:66-67 | the text written for an integer denotes it |
| `SignalSafeLog.SignalSafeBuffer.AppendString` | score/launch_manager/src/daemon/src/common/signal_safe_log.hpp:40-50 | the pending bytes grow by the string, cut to the room left |
| `SignalSafeLog.SignalSafeBuffer.AppendInt` | score/launch_manager/src/daemon/src/common/signal_safe_log.hpp:59-76 | the pending bytes grow by the whole text of the integer or not at all, whatever a failed conversion leaves behind |
| `SignalSafeLog.SignalSafeBuffer.Flush` | score/launch_manager/src/daemon/src/common/signal_safe_log.hpp:81-102 | the loop in closed form: the bytes let through before the first failure are written, the rest stays pending, and success rewinds |
| `SignalSafeLog.BytesAreConserved` | score/launch_manager/src/daemon/src/common/signal_safe_log.hpp:40-102 | over any appends and flushes, bytes written followed by pending bytes are the accepted bytes in order, within the array |
| `SignalSafeLog.FlushResumes` | score/launch_manager/src/daemon/src/common/signal_safe_log.hpp:81-102 | a refused flush can be taken up again without losing or repeating a byte |
| `SignalSafeLog.CompleteIffFits` | score/launch_manager/src/daemon/src/common/signal_safe_log.hpp:115-125 | a fresh buffer holds the whole message if and only if it fits |
| `SignalSafeLog.StringsAreCutAtCapacity` | score/launch_manager/src/daemon/src/common/signal_safe_log.hpp:40-50 | a message of strings is cut once, at the capacity |
| `SignalSafeLog.IntegerVanishesExample` | score/launch_manager/src/daemon/src/common/signal_safe_log.hpp:59-76 | an integer that does not fit vanishes from the middle of a message |
| `SignalSafeLog.Log` | score/launch_manager/src/daemon/src/common/signal_safe_log.hpp:115-129 | when the log answers success, the whole message was written if and only if it fits 1024 bytes |
| `LifeCycleManager.InvPreserved` | score/launch_manager/src/lifecycle_client/src/lifecyclemanager.cpp:33-173 | every step of both threads keeps the invariant |
| `LifeCycleManager.ProtocolIsFollowed` | score/launch_manager/src/lifecycle_client/src/lifecyclemanager.cpp:52-173 | in every interleaving each event has the events before it that it needs: running reported and `Run` entered only after `Initialize` returned 0, stop requested only after an application is stored and a signal sent, and `run` and the destructor return only after the handler finished |
| `LifeCycleManager.AtMostOnce` | score/launch_manager/src/lifecycle_client/src/lifecyclemanager.cpp:57-108 | self-SIGTERM is sent at most once in a life, and no event but an outside signal repeats |
| `LifeCycleManager.DestructorFinishesIff` | score/launch_manager/src/lifecycle_client/src/lifecyclemanager.cpp:52-72 | a destructor that has begun can finish if and only if an application was stored and the wait for the signal has not failed |
| `LifeCycleManager.FailedSelfSigtermBlocks` | score/launch_manager/src/lifecycle_client/src/lifecyclemanager.cpp:57-72 | without an outside signal, a failed self-SIGTERM means neither `run` nor the destructor returns |
| `LifeCycleManager.StopRequestsSeenByApplications` | score/launch_manager/src/lifecycle_client/src/lifecyclemanager.cpp:74-108 | in the first `run` a stop request comes from outside; every later `run` finds it already made |

## Left out

- FFI null checks and casts: one-branch facts about addresses.
- Thread spawning, scheduling parameters, affinity and sleeping: replaced by a monotone clock and hypotheses on wake-ups.
- Weak memory orderings: each atomic operation is one sequentially consistent step.
- Overflow panics of timestamps and sub-millisecond durations: hypotheses of the contracts instead.
- Tags, logging and error tables: tags are values with equality.
- JSON documents are values: the Python code changes dictionaries in place, so aliasing between a document and the defaults it was filled from is not captured, nor is the order of keys.
- Sarif.NormalizeSarifRun: ids and URIs that are not strings and indices that are not integers count as failures, although Python can sort a table whose keys are all numbers.
- `gen_config`, schema validation, file access and argument parsing: field copying and library calls.
- Text of the error messages, and the path printed with a cyclic dependency.
- The three maps of `HealthMonitor` are one map of keys with their kind, met map by map, each in any order.
- The supervisor behind `notify_alive` is not part of this model: a notification is its record and its call.
- The rules of other tool components are told apart by component and index; their own tables are not modelled, since the normaliser leaves them alone.
- LifeCycleManager.ProtocolIsFollowed: the two threads are a step system rather than methods of one class, because the interleaving is the point; logging and thread names are left out, and termination of `Initialize` and `Run` is not assumed.
- ConfigDefaults.RetryResolution: gives the value when it is plain; a dictionary under a retry key is merged with the layers below it like any other.
- DeadlineObjects.Deadline.Start: clock read and word update of one call are one client step with time passing between them; other tags are untouched meanwhile, so nothing of theirs is lost.
- Artifact references inside the artifacts table itself (its own `location` and `parentIndex`): the normaliser leaves that table alone, and `SarifMeaning` speaks of everything outside it.
- `TimeRange::from_interval`, `IdentifierHash`, the application container and the alive client: they would only add easy members.
