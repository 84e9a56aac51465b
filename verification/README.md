# Verified models of the agent platform's hardest logic

This project models, in Dafny, the parts of the repository whose behaviour is hardest to see from
one function body: the quality-gate scheduler, two asynchronous supervisors of the desktop shell,
a lease lock, four parsers and printers, and several stores and file-tree operations. Each
component has its own module; the components do not share state.

| module | models |
|---|---|
| `Options`, `Text`, `Decimal` | an optional value, Python's white space and stripping, decimal integers |
| `Digraph`, `GateGraph`, `Schedule`, `RunGates` | dependency graphs; validation of a gate selection; the scheduler as a transition system over its events; the scheduler's loops, proved against that system |
| `Sharder` | splitting a pytest command line into shards |
| `Visibility`, `VisibilityStarts` | recovery of a renderer that reports itself hidden, one event per stretch between two awaits; when a recovery starts and what a renderer that stays hidden goes through |
| `KernelSupervisor` | restart back-off, exit watcher, timer and shutdown of the packaged kernel, in the same style |
| `OpsLock`, `OpsLockCalls` | the lease lock, any number of contenders interleaved file operation by file operation; what an undisturbed call leaves behind |
| `Base64`, `Base64Repair`, `KernelToken`, `CardIo`, `CardFormats` | base 64 with repair; what the repair ignores; the kernel token; character cards in PNG chunks and JSON; that formats which read back what they wrote exist |
| `LineWeaving`, `SearxngConfig`, `SearxngPatch`, `SearxngText`, `SearxngFile`, `SearxngRerun` | simultaneous insertion of lines; engine blocks; the settings patch on lines; the same in terms of the text; the patch on files; the patch run again on the file it wrote |
| `UnifiedDiff`, `DiffRoundTrip`, `DiffText`, `DiffReading`, `DiffCoverage` | the diff reader; git's diff printer and what the reader credits inside one file; line ends and hunk headers; the reader on whole diffs and when it is right; the coverage verdict |
| `BoundedDict` | the dictionary bounded by age and size |
| `ProjectRegistry` | the ledger of project folders |
| `LogArchive` | archiving of kernel logs under failures |
| `TreeSync` | the one-way plugin sync and the first-run seeding of a directory tree |

Code that updates variables in loops or fields in place is a method or a class, proved against a
specification function; the promises are then lemmas about that function, or invariants over every
run. What comes from outside (outcomes of gates, reads of a renderer, file operations that fail,
clocks, path resolution, JSON, PNG and UTF-8 codecs) is a parameter, so a statement for all
parameters covers every behaviour.

## Where the code and its documentation or an expected property differ

The model follows the code. Each difference is proved, and the exact condition is given.

* A nudge cycle that ends with any answer but "hidden", or with an unreadable renderer, renews the
  retry budget, so the cap of three hides holds per budget and not per show event. From any
  reachable state, and from any show event on, the window is hidden at most three times until the
  next show event that is no echo of a nudge, if and only if the reads of the cycle never answer
  "hidden" or never anything else (`Visibility.CappedIff`,
  `electron/visibility-recovery.ts:303-306`).
* The restart table limits restarts between two readiness events only. A kernel that becomes ready
  and then dies at once is restarted for ever; five restarts in all are the limit if and only if no
  restarted kernel ever becomes ready. The stable-run window never has an effect, because the
  counter is already zero whenever a watched kernel exits (`KernelSupervisor.CappedIffNeverReady`,
  `StableWindowIrrelevant`, `electron/kernel-manager.ts:69-72, 597`).
* Shutdown returns early when nothing is managed, so during back-off it does not cancel the pending
  restart, although the comment at line 733 says so; it is final if and only if it finds a managed
  child or nothing is under way (`KernelSupervisor.ShutdownFinalIff`).
* Distinct holders, live processes and unexpired leases do not suffice for the lease lock: a reader
  can come between the create and the write of the content, a lock released between the existence
  check and the read is judged stale, and in the command form the recorded process is dead for a
  moment before the release. A set of conditions on processes, time and scheduling guarantees
  exclusion if and only if it contains all five (`OpsLock.ExclusionIff`).
* The plain form of the lease lock records the acquire command itself, which has exited when it
  returns. From then on any contender takes the lock over, whatever the lease, although the usage
  text (`scripts/ops_lock.py:24-26`) lets exclusion cover the lease
  (`OpsLock.PlainFormExcludesNobody`).
* A second run of the settings patch changes nothing exactly when no enabled engine has two
  `disabled: true` lines, on lines as on files with or without a final newline. An insertion behind
  an unterminated last line is glued to it: every blocked engine ends with a disabled line if and
  only if the file is empty, ends in a newline, or its last line is not the header found for a
  blocked engine; such a header is destroyed. A formats line found before is found after with its
  JSON item if and only if the file is empty, ends in a newline, or its last line is not the first
  formats line (`SearxngPatch.SecondRunChangesNothingIff`,
  `SearxngRerun.SecondFileRunChangesNothingIff`, `SearxngFile.FileDisabledIff`,
  `SearxngRerun.FileJsonIff`).
* The diff reader takes an added line that starts with `++ ` for a file header. On the diffs git
  prints of single-line text it is right if and only if no such line names a path outside the diff
  and no hunk that adds lines follows one that names another or a deleted file, unless the own
  file's header comes in between (`DiffReading.GitDiffReadsExactlyIff`).
* The diff reader splits lines as `str.splitlines` does. A form feed inside a source line can make
  the rest of that line look like a header, even when no added line starts with `++ `
  (`DiffReading.FormFeedMisread`, with the condition in `DiffReading.ReadsExactlyIff`). With such
  lines a hunk out of place can be made up for by another one (`DiffReading.InPlaceNotNecessary`).
* A clock that steps back can make the bounded dictionary drop an entry that is newer than one it
  keeps: exactly when a write comes with a clock behind a dropped entry of another key
  (`BoundedDict.AgreesIffNeverBehind`).
* Overwriting a key of a full dictionary still evicts another live entry, although nothing exceeds
  the maximum (`BoundedDict.EvictsAnotherIff`).
* Registering a project by title checks no overlap, and no check sees an overlap with the
  file-system root. By title, folders stay apart if and only if the skipped checks would have passed
  and no root is involved (`ProjectRegistry.DefaultRouteNests`, `ProjectRegistry.DefaultKeepsIff`,
  `ProjectRegistry.ExplicitKeepsIff`).
* A log whose plaintext is removed by something else between its compression and its removal loses
  its archive too: the failed removal makes the rollback delete it. A run loses exactly these days
  (`LogArchive.LostIff`, `LogArchive.FinalKeptIff`).
* The plugin sync overwrites a user file that is newer than the repository's exactly when the sizes
  differ, although its description says newer user files are never overwritten
  (`TreeSync.NewerCopyOverwrittenIff`).
* `(n - 1)^2 + 1` paths are enough for exactly n shards, fewer than `n (n - 1)`, and the bound is
  sharp (`Sharder.EnoughPaths`, `Sharder.OnePathTooFew`).

## Model

| member | source | states |
|---|---|---|
| Digraph.TrapGivesCycle | scripts/run_gates.py:841-850 | a non-empty set in which every member waits for another member contains a walk that closes on itself |
| Digraph.CycleGivesTrap | scripts/run_gates.py:841-850 | conversely every cycle yields such a set |
| GateGraph.CountNeeds | scripts/run_gates.py:832-838 | the counting loops leave, for every gate, the number of its in-set needs with repeated mentions, and for every gate the list of gates to release, once per mention |
| GateGraph.PopGate | scripts/run_gates.py:842-847 | popping a gate keeps the loop invariants: pop order topological, work list exactly the unpopped gates of indegree zero, indegrees equal to the mentions of unpopped needs |
| GateGraph.ReleaseDependents | scripts/run_gates.py:844-847 | the inner loop discounts every mention once and restores the invariants |
| GateGraph.Kahn | scripts/run_gates.py:839-847 | the pop order is topological; what is never popped is a set in which every gate waits for another one of the set, and is exactly the gates of positive indegree |
| GateGraph.KahnDecides | scripts/run_gates.py:848-850 | all gates are popped if and only if the needs relation on the selection has no cycle, repeated edges included; the rest is the largest set of mutually blocked gates |
| GateGraph.StuckIsLargest | scripts/run_gates.py:849 | every mutually blocked set is among the gates the error names |
| GateGraph.ValidateGraph | scripts/run_gates.py:811-850 | valid if and only if the selection is well described and acyclic; otherwise exactly the first complaint in source order, with the repeated ids, the first faulty gate, the first unknown need, or the largest blocked set |
| GateGraph.FaultMeaning | scripts/run_gates.py:808-822 | a gate's metadata is in order if and only if its wiring is one of the four known ones, any wiring but "ci" has a reason, and a fast gate has an estimate; otherwise the fault named is the first of these |
| GateGraph.RepeatedIdsOccurTwice | scripts/run_gates.py:812-815 | the duplicate ids of the error are those that occur more than once in the list of ids |
| Schedule.ReachableIsSafe | scripts/run_gates.py:921-964 | in every reachable table at most max_active gates run, every running, passed or failed gate has all its in-set needs passed, every skipped gate has a lost need |
| Schedule.SubmittedAtMostOnce | scripts/run_gates.py:934-943 | no gate is submitted twice, and the submitted ones are exactly those that run or ran |
| Schedule.RunLengthBounded | scripts/run_gates.py:932-964 | no run has more than two events per gate |
| Schedule.StalledFixpointSettles | scripts/run_gates.py:944-957 | when nothing runs, nothing is ready and the cascade has reached its fixpoint, no gate is pending; this needs acyclicity |
| Schedule.SettledIsFate | scripts/run_gates.py:945-964 | a safe table in which every gate is done is the one table in which a gate is skipped if and only if a gate reachable through its needs fails, and has its own outcome otherwise |
| Schedule.ExhaustedRunMeetsFate | scripts/run_gates.py:932-964 | every run that cannot be continued ends in that table |
| Schedule.ScheduleIndependence | scripts/run_gates.py:912-966 | two exhausted runs with the same needs and outcomes end alike, whatever the completion orders and the two limits |
| Schedule.EveryRunCanFinish | scripts/run_gates.py:932-966 | no run gets stuck: every run extends to an exhausted one |
| RunGates.FillSlots | scripts/run_gates.py:934-943 | the scan produces a legal continuation of the run; afterwards all slots are taken or no pending gate is ready |
| RunGates.Collect | scripts/run_gates.py:958-964 | for any non-empty set of finished gates, recording them is a legal continuation and strictly reduces the open gates |
| RunGates.CascadePass | scripts/run_gates.py:949-956 | one pass skips only gates with a lost need and, if it changed nothing, none is left |
| RunGates.Cascade | scripts/run_gates.py:945-957 | the cascade ends with every gate settled at its fate |
| RunGates.RunAll | scripts/run_gates.py:932-964 | the main loop terminates, follows a run of the transition system and ends with every gate at its fate |
| RunGates.StatusesPartition | scripts/run_gates.py:969-971 | passed, failed and skipped add up to the number of results |
| RunGates.BlockingMeaning | scripts/run_gates.py:974-978 | no blocking result if and only if every gate without allow_failure and all its in-set ancestors pass |
| RunGates.ExitCode | scripts/run_gates.py:974-988 | 0 if and only if no gate without allow_failure failed or was skipped |
| RunGates.CountsMeaning | scripts/run_gates.py:969-971 | the passed gates are those that pass with all their in-set ancestors, the failed ones those that fail with no failing ancestor, the skipped ones those with a failing ancestor |
| RunGates.RunSelected | scripts/run_gates.py:912-988 | rejected exactly for a bad selection, with the first complaint; otherwise the results are the fates, each of the three counts is the number of gates determined by own outcome and ancestors, they add up to the number of gates, and the exit code is 0 if and only if every gate without allow_failure and all its ancestors pass |
| Sharder.TailStart | scripts/run_gates.py:125-129 | the first option splits the arguments; everything before it is a path |
| Sharder.PytestArgvShards | scripts/run_gates.py:118-132 | the shards are an order-preserving partition of the paths into chunks of at most ceil(L/n), full except the last, each followed by all options; zero and negative counts and an empty path list fail as in Python |
| Sharder.ShardCount | scripts/run_gates.py:131-132 | at most n shards, and n of them if and only if n - 1 full shards do not suffice |
| Sharder.EnoughPaths | scripts/run_gates.py:131-132 | more than (n - 1)^2 paths give exactly n shards |
| Sharder.OnePathTooFew | scripts/run_gates.py:131-132 | (n - 1)^2 paths give only n - 1, so the bound is sharp |
| Sharder.ShardsForPositiveCount | scripts/run_gates.py:131-132 | the three facts together for the result of the sharding |
| Visibility.EveryInterleavingIsSafe | electron/visibility-recovery.ts:172-317 | in every interleaving of window changes, show events, timer ticks and suspended reads: at most one nudge cycle, exactly while the flag is set; the hides since the last reset equal the attempts and are at most three; every hide is answered by a show or by giving up because the window is gone or minimised |
| Visibility.HidesBetweenResets | electron/visibility-recovery.ts:263-307 | any stretch of actions without a budget reset holds at most three hides |
| Visibility.PollNeedsTwoHiddenSamples | electron/visibility-recovery.ts:215-241 | a poll starts a cycle only on two hidden verdicts in a row, overlapping samples included |
| Visibility.RankFalls | electron/visibility-recovery.ts:263-307 | every resumption of the active cycle uses up its rank and no other event restores it |
| Visibility.CycleEnds | electron/visibility-recovery.ts:260-316 | a cycle cannot be resumed twelve times from its first read and still be active |
| Visibility.NoCapPerShowEvent | electron/visibility-recovery.ts:303-306 | after one show event, with no further one but the echoes of the nudges, the window can be hidden any number of times: for every n, and every answer of the second read other than "hidden", a run with n hides |
| Visibility.CappedIff | electron/visibility-recovery.ts:172-307 | over all continuations of every safe state, and of every show event of a run, in which later show events come only while a cycle is in flight and cycle reads answer from a given set: at most three further hides if and only if the set lacks "hidden" or has nothing else |
| VisibilityStarts.SampleBeginsIff | electron/visibility-recovery.ts:180-227 | the renderer is sampled if and only if the armed check or a running poll comes due, no cycle is active, and the window is there, visible and not minimised; the check asks for one strike, the poll for two |
| VisibilityStarts.HiddenWindowForgetsStrikes | electron/visibility-recovery.ts:222-226 | a due check or poll of a hidden or minimised window sets the strikes to zero, any other keeps them |
| VisibilityStarts.CycleStartsIff | electron/visibility-recovery.ts:228-263 | a cycle starts if and only if a pending sample reads "hidden" and is the last strike it takes, with the window there, visible and not minimised, no cycle active and fewer than three attempts made |
| VisibilityStarts.BeforeAnswer | electron/visibility-recovery.ts:270-286 | an unreadable first read ends the cycle, a visible one also renews the budget, a hidden one hides the window and counts the attempt |
| VisibilityStarts.GapAnswer | electron/visibility-recovery.ts:288-294 | whatever became of the window in the gap: shown again unless it is destroyed or minimised by then |
| VisibilityStarts.RecheckAnswer | electron/visibility-recovery.ts:295-303 | read again unless the window is destroyed |
| VisibilityStarts.HiddenIsNudgedThrice | electron/visibility-recovery.ts:172-316 | from the first show event on, a renderer that always reads "hidden" gets its window hidden and shown three times, and the cycle ends |
| VisibilityStarts.UsedUpStaysQuiet | electron/visibility-recovery.ts:248-263 | once three attempts are made and no cycle is active, nothing is done to the window until the next show event, whatever the samples say |
| VisibilityStarts.SilentUntilStarted | electron/visibility-recovery.ts:172-211 | without a timer and with nothing under way nothing happens until a show event comes or polling starts |
| VisibilityStarts.FreshAndStoppedAreSilent | electron/visibility-recovery.ts:198-211 | a new controller is in this state, and so is a stopped one with nothing under way |
| Visibility.VisibilityRecovery.OnWindowShown | electron/visibility-recovery.ts:172-184 | a show event during a cycle changes nothing; otherwise it resets the budget and re-arms the check, as the event machine says |
| Visibility.VisibilityRecovery.VerifyFired | electron/visibility-recovery.ts:180-183 | the armed check clears itself and samples with one strike required |
| Visibility.VisibilityRecovery.PollFired | electron/visibility-recovery.ts:191-196 | a poll tick samples with two strikes required |
| Visibility.VisibilityRecovery.SampleAndMaybeRecover | electron/visibility-recovery.ts:215-227 | up to the read: an event of the machine, including the strike reset of a truly hidden window |
| Visibility.VisibilityRecovery.SampleResumed | electron/visibility-recovery.ts:228-240 | from the read on: strike counting and the gate of the cycle are the machine step |
| Visibility.VisibilityRecovery.NudgeLoopHead | electron/visibility-recovery.ts:263-269 | loop test and window checks up to the next read are the machine step |
| Visibility.VisibilityRecovery.BeforeResumed | electron/visibility-recovery.ts:270-286 | the three exits and the hide after the first read are the machine step |
| Visibility.VisibilityRecovery.GapElapsed | electron/visibility-recovery.ts:289-294 | after the gap: give up or show |
| Visibility.VisibilityRecovery.RecheckElapsed | electron/visibility-recovery.ts:295-298 | after the recheck delay: stop for a destroyed window or read again |
| Visibility.VisibilityRecovery.AfterResumed | electron/visibility-recovery.ts:303-316 | after the second read: budget renewed, or the next round |
| Visibility.VisibilityRecovery.Resume | electron/visibility-recovery.ts:215-316 | any suspended activation resumed in any order takes exactly one step of the machine |
| KernelSupervisor.EveryOrderIsSafe | electron/kernel-manager.ts:506-604 | in every order of exits, timers, probes, readiness results and shutdowns with one ensure call, at most one activity exists and the back-off bookkeeping is exact |
| KernelSupervisor.TimerAndSpawnExclusive | electron/kernel-manager.ts:536-566 | a pending restart timer implies no managed child, no restart in progress and no start; every spawn happens with no managed child |
| KernelSupervisor.BackOffFollowsTable | electron/kernel-manager.ts:570-588 | since the last readiness at most five restart spawns, with delays that are a prefix of 2, 5, 15, 30, 60 s |
| KernelSupervisor.WhoGivesUp | electron/kernel-manager.ts:589-594 | only a restart that did not become ready gives up; the exit watcher never does |
| KernelSupervisor.GivingUpIsFinal | electron/kernel-manager.ts:589-594 | giving up happens after all five delays and leaves no timer and nothing that could spawn |
| KernelSupervisor.PlanMeaning | electron/kernel-manager.ts:70-104 | every decision written out: none after an intended shutdown, 2, 5, 15, 30 and 60 s for the first five failures in a row, the first delay again after five stable minutes, else giving up |
| KernelSupervisor.SpawnsIff | electron/kernel-manager.ts:545-566 | a kernel is spawned if and only if a start or restart under way finds that nothing answers on the port |
| KernelSupervisor.FailedStarts | electron/kernel-manager.ts:625-704 | a first start with a missing executable or a taken port spawns nothing, one whose child does not become ready gives it up; all throw and nothing is ever spawned afterwards |
| KernelSupervisor.RefusedRestart | electron/kernel-manager.ts:549-563 | a restart with a missing executable or a taken port does nothing and is not tried again |
| KernelSupervisor.FailedRestartTriesAgain | electron/kernel-manager.ts:570-594 | a restart that does not become ready after k < 5 failures leaves no child, one live timer, counter k + 1 and the delay of the table; after five it gives up |
| KernelSupervisor.FiveTriesThenGiveUp | electron/kernel-manager.ts:506-604 | a kernel that was ready, dies and never becomes ready again is spawned exactly five times more, after 2, 5, 15, 30 and 60 s, then given up; nothing is spawned afterwards |
| KernelSupervisor.StableWindowIrrelevant | electron/kernel-manager.ts:96-104 | however long a watched kernel ran, its exit is followed by the first delay of the table |
| KernelSupervisor.InertNeverSpawns | electron/kernel-manager.ts:737-749 | once nothing is under way no sequence of events spawns again |
| KernelSupervisor.LiveCanSpawn | electron/kernel-manager.ts:545-566 | as long as something is under way without a child, some sequence of events spawns |
| KernelSupervisor.ShutdownFinalIff | electron/kernel-manager.ts:737-749 | after a shutdown nothing is ever spawned again if and only if it found a managed child or nothing was under way |
| KernelSupervisor.NoCapOnCrashLoops | electron/kernel-manager.ts:597-600 | for every n there is a run of quick crashes after readiness with n restarts and no giving up |
| KernelSupervisor.CappedIffNeverReady | electron/kernel-manager.ts:570-604 | over all runs in which restarted kernels become ready or not as a given set allows, at most five restarts in all if and only if the set does not allow readiness |
| KernelSupervisor.KernelManager.Schedule | electron/kernel-manager.ts:531-540 | arming the timer with the planned delay |
| KernelSupervisor.KernelManager.OnExit | electron/kernel-manager.ts:511-541 | the exit handler of a child is one step of the event machine; a stale watcher does nothing |
| KernelSupervisor.KernelManager.OnTimer | electron/kernel-manager.ts:536-554 | the timer callback up to the health probe is one step |
| KernelSupervisor.KernelManager.OnRestartProbed | electron/kernel-manager.ts:557-566 | from the probe answer to the spawn is one step |
| KernelSupervisor.KernelManager.OnRestartAwaited | electron/kernel-manager.ts:570-604 | from the readiness result to the end, either branch, is one step |
| KernelSupervisor.KernelManager.ShutdownManagedKernel | electron/kernel-manager.ts:737-749 | shutdown is one step, a no-op without a child |
| KernelSupervisor.KernelManager.OnStartProbed | electron/kernel-manager.ts:673-678 | first start: busy port or spawn |
| KernelSupervisor.KernelManager.OnStartAwaited | electron/kernel-manager.ts:684-704 | first start: readiness or failure, which shuts down |
| OpsLock.VerdictMeaning | scripts/ops_lock.py:94-102 | the verdict is held if and only if a record was there, the process it names is alive, and the clock is within its lease, 0 standing for the default; so exactly when the reader met none of four faults |
| OpsLock.Exclusion | scripts/ops_lock.py:105-171 | over every interleaving of file operations of any number of contenders in which no holder dies or exits, no lease lapses, and content, look and release each happen at once, nobody finds a lock to take over and at most one acquire is unreleased |
| OpsLock.ExclusionInShortRuns | scripts/ops_lock.py:94-171 | the same without a condition on leases if less time passes in the run than any requested lease allows |
| OpsLock.OnlyOwnerRemoves | scripts/ops_lock.py:177-193 | in a run that meets these conditions only the owner removes the file, and that is its release |
| OpsLockCalls.ReleaseFreesIff | scripts/ops_lock.py:177-193 | from any state: an undisturbed release removes the file and releases the caller's acquire if and only if the lock is written and names the caller; otherwise file and owners stay |
| OpsLockCalls.CommandEndFreesIff | scripts/ops_lock.py:168-171 | the same for the automatic release at the end of a command, whose process is gone |
| OpsLockCalls.AcquireTakesIff | scripts/ops_lock.py:105-162 | from any state: an undisturbed acquire takes the lock if and only if there is none, it is empty, its process is not alive or its lease is over, 0 standing for 1800 s; the new lock names caller, process, time and lease; otherwise nothing changes |
| OpsLockCalls.RecordedTime | scripts/ops_lock.py:124-148 | time that passes between the call and the create does not make the lock younger: the first attempt records the time of the call, a retry that of its own create |
| OpsLockCalls.CommandTakesIff | scripts/ops_lock.py:124-171 | the same for the command form, which ends with the command running and its process in the lock |
| OpsLock.BlankReadBreaksExclusion | scripts/ops_lock.py:116-120 | with all conditions but that content appears with the create, a run with two owners |
| OpsLock.LapsedLeaseBreaksExclusion | scripts/ops_lock.py:100-101 | with all conditions but that leases hold, a run with two owners, the first one's command still running |
| OpsLock.VanishedReadBreaksExclusion | scripts/ops_lock.py:76-81 | with all conditions but that check, read and verdict are one operation, a run with two owners, whose commands hold live processes throughout |
| OpsLock.CommandEndBreaksExclusion | scripts/ops_lock.py:164-171 | with all conditions but that a command's end and its release are one operation, a run with two owners, in which the late release deletes the new lock |
| OpsLock.PlainFormExcludesNobody | scripts/ops_lock.py:24-26 | once the process of a plain acquire has exited, any other contender takes the lock over at once, for every lease |
| OpsLock.EveryConditionIsNeeded | scripts/ops_lock.py:94-193 | for each of the five conditions, a run that meets the other four and has two unreleased acquires |
| OpsLock.ExclusionIff | scripts/ops_lock.py:94-193 | a set of conditions rules out a second unreleased acquire in every run that meets them if and only if it has all five |
| Base64.DecodeEncode | plugins/shared/card_io.py:242-249 | the quad decoder undoes the encoder for every byte string, strict or lenient (RFC 4648, section 4) |
| Base64.RepadRestores | plugins/shared/card_io.py:245 | adding padding up to a multiple of four restores any removed padding |
| Base64.StrictRejects | plugins/shared/card_io.py:246-247 | the strict decoder rejects any text with a foreign character before its padding |
| Base64.ToleratesSpaceAndPadding | plugins/shared/card_io.py:242-249 | any white space inserted into the encoding and any removal of trailing padding still decodes to the bytes |
| Base64.ToleratesUrlSafe | plugins/shared/card_io.py:246-249 | the same for the URL-safe alphabet (RFC 4648, section 5), through the fallback |
| Base64Repair.WhiteSpaceIgnored | plugins/shared/card_io.py:242-249 | a white-space character anywhere makes no difference, whatever the text is |
| Base64Repair.ToleratesForeign | plugins/shared/card_io.py:246-249 | a foreign character anywhere before the padding of an encoding is skipped through the fallback |
| Base64Repair.KnownVectors | plugins/shared/card_io.py:242-249 | the encoder of the round trips gives the test vectors of RFC 4648, section 10 |
| Decimal.ParseShow | plugins/shared/kernel_token.py:51 | reading a printed integer gives it back |
| Decimal.ParseSigned | plugins/shared/kernel_token.py:51 | a sign and white space around a number are read as Python's int does |
| KernelToken.SplitPayload | plugins/shared/kernel_token.py:47-48 | splitting a payload at colons, at most four times, finds the three identity fields whatever follows them |
| KernelToken.BareOf | plugins/shared/kernel_token.py:39 | cutting the signature part and the outer white space leaves the encoded payload |
| KernelToken.DecodeReturnsIdentity | plugins/shared/kernel_token.py:29-54 | for colon-free kind, user and name, the unpadded or padded encoding of the payload, with or without a signature part, decodes to exactly user, name and expiry |
| KernelToken.DecodedFromPayload | plugins/shared/kernel_token.py:29-54 | conversely an identity is decoded only from a payload whose second and third field are user and name and whose fourth, free of colons, reads as the expiry |
| CardIo.WrapLoose | plugins/shared/card_io.py:271-277 | the filling loop builds the envelope of the bare card |
| CardIo.NormalizeStable | plugins/shared/card_io.py:263-268 | normalising is idempotent, and leaves a card alone if and only if it has its envelope |
| CardIo.WrappingKeepsFields | plugins/shared/card_io.py:271-286 | every field that is no envelope key is kept with its value, known or not; every missing standard field gets the empty value of its kind; nothing else appears |
| CardIo.EmptyCard | plugins/shared/card_io.py:263-286 | the envelope of an empty card written out: version 2, eleven empty texts, two empty lists, empty extensions |
| CardIo.SavedUnder | plugins/shared/card_io.py:119-122 | a card of version 3 is saved under "ccv3", any other under "chara" |
| CardIo.PngRoundTrip | plugins/shared/card_io.py:105-135 | if the card's JSON and its one text chunk are read back, loading a saved PNG card gives the normalised card, so the card itself if and only if it has its envelope |
| CardIo.JsonRoundTrip | plugins/shared/card_io.py:138-148 | the same for the JSON file, of which only the card's JSON has to be read back; it is never mistaken for an image |
| CardIo.DamagedChunkStillLoads | plugins/shared/card_io.py:231-249 | any image whose one chunk holds the encoded card with white space inside or padding lost still loads the card |
| CardIo.Version3Preferred | plugins/shared/card_io.py:218-225 | in any image an exactly named version 3 chunk is read, whatever other chunks and spellings surround it, in any order |
| CardIo.Version2Next | plugins/shared/card_io.py:218-225 | without one, an exactly named version 2 chunk is read before any other spelling |
| CardIo.OtherSpellings | plugins/shared/card_io.py:221-225 | without the exact names the last chunk named like version 3 but for its case is read, else the last one named like version 2; none is chosen if and only if no chunk has such a name |
| CardIo.NoCardRefused | plugins/shared/card_io.py:225-228 | an image without any such name is refused for it |
| CardIo.LoadedHasEnvelope | plugins/shared/card_io.py:252-268 | whatever is loaded, from image or file, has its envelope |
| CardFormats.SoundFormatsExist | plugins/shared/card_io.py:105-148 | formats that read back every JSON value and chunk list they wrote exist, so the card theorems ask nothing impossible |
| LineWeaving.WeaveSuffix | scripts/searxng_config.py:137-139 | in a simultaneous insertion every line appears at its number plus the insertions up to it, followed by the weaving of the rest |
| LineWeaving.WeaveCovers | scripts/searxng_config.py:137-139 | every place of the result is such a line or an insertion |
| LineWeaving.InsertBelow | scripts/searxng_config.py:138-139 | inserting at an original number, after all larger ones, equals one more simultaneous insertion |
| LineWeaving.WeaveKeepsLines | scripts/searxng_config.py:137-139 | the original lines are a subsequence |
| SearxngConfig.HeaderNamesOne | scripts/searxng_config.py:66 | a line is the header of at most one engine |
| SearxngConfig.BlocksDisjoint | scripts/searxng_config.py:64-80 | blocks of different engines do not overlap |
| SearxngConfig.FindEngineBlock | scripts/searxng_config.py:64-80 | the two loops find the block that the first header line and the next block end delimit |
| SearxngConfig.WeaveMovesBlocks | scripts/searxng_config.py:137-139 | inserting lines that are neither headers nor block ends moves every block with its lines |
| SearxngConfig.EnableEngine | scripts/searxng_config.py:114-124 | exactly the first disabled line of the block is rewritten |
| SearxngConfig.ForceEnable | scripts/searxng_config.py:114-124 | for every iteration order the result is the simultaneous rewriting of the targets in the original lines |
| SearxngPatch.AddJson | scripts/searxng_config.py:91-106 | the JSON item is added below the first formats line unless its list has it |
| SearxngPatch.JsonAddedIff | scripts/searxng_config.py:91-106 | in terms of the text: below the first line that is the formats key comes the line of the JSON item if and only if no line of its list strips to "- json"; without such a key nothing changes |
| SearxngPatch.CollectInsertions | scripts/searxng_config.py:126-135 | for every iteration order the collected points are those of the blocked engines without a disabled line |
| SearxngPatch.InsertAll | scripts/searxng_config.py:137-139 | the insertions from last to first equal simultaneous insertion at the original numbers |
| SearxngPatch.PatchConfig | scripts/searxng_config.py:83-144 | the whole patch is the same function of the lines for every iteration order of both sets |
| SearxngPatch.LinesSurvive | scripts/searxng_config.py:83-144 | the output contains, in order, all input lines, some `disabled: true` lines of which were switched to false; the same stage by stage |
| SearxngPatch.BlockedEnginesDisabled | scripts/searxng_config.py:126-139 | every blocked engine that is present ends with a disabled line |
| SearxngPatch.SecondRun | scripts/searxng_config.py:83-144 | a second run can only switch remaining disabled lines |
| SearxngPatch.NothingToEnableIff | scripts/searxng_config.py:114-124 | after a run nothing is left to enable if and only if no enabled engine has two disabled lines |
| SearxngPatch.SecondRunChangesNothingIff | scripts/searxng_config.py:83-144 | a second run changes nothing if and only if no enabled engine has two disabled lines in its block |
| SearxngPatch.EngineListsFit | scripts/searxng_config.py:24-61 | the two engine lists of the source are disjoint and plain, as the theorems require |
| SearxngText.PatchInText | scripts/searxng_config.py:64-139 | in terms of the text: of every engine to enable the first line of its block that says disabled true becomes disabled false; below the header of every engine to block whose block does not say disabled comes a line that does; nothing else changes |
| SearxngText.BlockedSayDisabled | scripts/searxng_config.py:126-139 | afterwards the block of every blocked engine has a line that starts with the disabled key |
| SearxngFile.SplitJoin | scripts/searxng_config.py:85-86 | writing terminated lines and reading them gives the same lines |
| SearxngFile.UnterminatedHeaderIsLost | scripts/searxng_config.py:134-144 | if the last line is unterminated and the header found for a blocked engine, that engine is not found in the patched file |
| SearxngFile.FileDisabledIff | scripts/searxng_config.py:83-144 | for every file: each blocked engine found in it is found with a disabled line in the patched file, if and only if the file is empty, ends in a newline, or its last line is not the header found for a blocked engine |
| SearxngRerun.SecondFileRunChangesNothingIff | scripts/searxng_config.py:83-144 | on every file, with a final newline or without, a second run leaves the text alone if and only if no enabled engine has two disabled lines in its block; only where a blocked engine's header is glued to an inserted line must no engine bear the name this makes |
| SearxngRerun.EngineListsUnglued | scripts/searxng_config.py:24-61 | no engine of the source bears such a name |
| SearxngRerun.FileJsonIff | scripts/searxng_config.py:91-106 | on every file: a formats line found before is found after, followed by its JSON item, if and only if the file is empty, ends in a newline, or its last line is not the first formats line |
| UnifiedDiff.ReadLine | scripts/check_diff_coverage.py:186-200 | one line updates path, pending hunk and result as the reader's step function does |
| UnifiedDiff.ParseUnifiedDiff | scripts/check_diff_coverage.py:173-202 | the loop computes the fold of that step, with the last hunk flushed |
| DiffRoundTrip.SplitPrinted | scripts/check_diff_coverage.py:186 | splitting a printed text gives the pieces of its lines |
| DiffRoundTrip.MatchPrinted | scripts/check_diff_coverage.py:44 | a printed hunk header is read back, omitted counts as one, whatever follows it |
| DiffText.LineEnds | scripts/check_diff_coverage.py:186 | a line ends at its first line break, which a carriage return shares with a newline behind it |
| DiffText.HunkHeaderRead | scripts/check_diff_coverage.py:44 | every line of the form of a hunk header is read, whatever its digits, and gives start and count of its new side |
| DiffText.NothingElseIsHunkHeader | scripts/check_diff_coverage.py:44 | no other line is |
| DiffRoundTrip.OneLineEdit | scripts/check_diff_coverage.py:187-193 | for single-line text an edit line passes for a header if and only if it adds such a line |
| DiffReading.ParsePrinted | scripts/check_diff_coverage.py:173-202 | the result on every printed diff, whatever its lines contain: the paths of the diff and those that lines inside hunks name, each with exactly the numbers that are found while the reader is in that path |
| DiffReading.PathsMeaning | scripts/check_diff_coverage.py:187-192 | the paths of a diff are the stripped and normalised new-side names but "/dev/null" |
| DiffReading.DeletionAddsNothing | scripts/check_diff_coverage.py:187-192 | a printed diff of deletions only, without a stray header of a file, is read as no path at all |
| DiffReading.ReadsExactly | scripts/check_diff_coverage.py:173-202 | over all printed diffs: if no stray file header names a path outside the diff, no hunk that adds lines stands behind a stray header of another or a deleted file, and no stray hunk header carries numbers, the result is, for each new-side path, exactly the numbers of its added lines in order; zero counts and deleted files included |
| DiffReading.GitDiffReadsExactlyIff | scripts/check_diff_coverage.py:173-202 | for diffs as git prints them of single-line text, with one file per new-side path, ascending hunks and deleted files that add nothing: right if and only if no stray header names a path outside the diff and no hunk that adds lines follows a stray header of another or a deleted file, unless its own file's header comes in between |
| DiffReading.SingleLineDiffReadsExactly | scripts/check_diff_coverage.py:173-202 | in particular right for every diff of single-line text in which no added line starts with two plus signs and a blank |
| DiffReading.StrayNumbersAdd | scripts/check_diff_coverage.py:193-198 | a line inside a kept file that reads as a hunk header of at least one line makes the result wrong, if no hunk is out of place |
| DiffReading.SkippedHunksMiss | scripts/check_diff_coverage.py:187-198 | a line that reads as a deleted file's header makes the result wrong if a hunk that adds lines follows it, whatever the lines are made of, if stray headers name only their own or deleted files and carry no numbers |
| DiffReading.StrayFileAddsKey | scripts/check_diff_coverage.py:187-192 | a line inside a hunk that names a file the diff does not have always makes the result wrong |
| DiffReading.ReadsExactlyIff | scripts/check_diff_coverage.py:173-202 | for lines of any kind: if some stray file header names a path outside the diff, or no hunk is out of place, or stray headers name only their own or deleted files and carry no numbers: right if and only if there is no path from outside, no hunk out of place and no stray number |
| DiffReading.InPlaceNotNecessary | scripts/check_diff_coverage.py:173-202 | with line breaks inside source lines, a diff with hunks out of place that is read right by coincidence: two files make up for each other |
| DiffReading.FormFeedMisread | scripts/check_diff_coverage.py:186-192 | a form feed inside an added line makes the reader report a file that is not there |
| DiffCoverage.Judge | scripts/check_diff_coverage.py:287-340 | measured and uncovered are the numbers of added lines in scope that are in the coverage data, and of those that are not covered; the files in scope without data are missing; exit status 0 if and only if none is missing and nothing is measured or the percentage reaches the threshold |
| DiffCoverage.EnoughMeaning | scripts/check_diff_coverage.py:318-332 | for every threshold: the percentage reaches it if and only if nothing is measured or a hundred times the covered lines is at least the threshold times the measured ones |
| DiffCoverage.NoneUncoveredTotalIff | scripts/check_diff_coverage.py:302-306 | no uncovered line in total if and only if every measured added line of every judged file is covered |
| DiffCoverage.EnoughAtHundred | scripts/check_diff_coverage.py:322-332 | at threshold 100 the percentage suffices if and only if nothing is uncovered |
| DiffCoverage.JudgeDiff | scripts/check_diff_coverage.py:280-340 | from a printed diff that meets the conditions of ReadsExactly to the exit status at threshold 100: 0 if and only if every file in scope is in the coverage data and each of its added lines that is measured is covered |
| BoundedDict.NeverOverfull | plugins/shared/bounded_dict.py:84-93 | over any run of writes and deletes, whatever the clock does, no key twice and never more entries than the maximum |
| BoundedDict.RunAgrees | plugins/shared/bounded_dict.py:78-110 | with a clock that never runs backwards every key agrees with an unbounded dictionary: a present key holds clock and every field, but "ts", of its latest write; an absent one was deleted, never written, or its write is no newer than any survivor |
| BoundedDict.WriteLeaves | plugins/shared/bounded_dict.py:78-93 | after a write the key holds clock and fields of the write, once; everything else was there before and is within its lifetime; and all that is within its lifetime stays if there is room for it |
| BoundedDict.AgreesIffNeverBehind | plugins/shared/bounded_dict.py:78-110 | whatever the clock does: this agreement holds after every operation of a run if and only if no write comes with a clock behind a dropped entry of another key |
| BoundedDict.BackwardClockDropsNewer | plugins/shared/bounded_dict.py:87-93 | a run with a clock that steps back in which it fails |
| BoundedDict.OldestFacts | plugins/shared/bounded_dict.py:89 | the evicted entry has the smallest time stamp and is the first of those in dictionary order |
| BoundedDict.EvictsAnotherIff | plugins/shared/bounded_dict.py:84-93 | a write removes another live entry if and only if the swept dictionary is full and its oldest entry has another key; the written entry is always there |
| BoundedDict.OverwriteAtCapacityShrinks | plugins/shared/bounded_dict.py:84-93 | overwriting then leaves one entry fewer |
| BoundedDict.RefinesQueue | plugins/shared/bounded_dict.py:78-93 | if only absent keys are written, the content is exactly the last max of the unexpired writes, oldest first |
| BoundedDict.ConfiguredMax | plugins/shared/bounded_dict.py:68-72 | the maximum in force is positive whatever argument and environment say |
| BoundedDict.LimitsMeaning | plugins/shared/bounded_dict.py:66-72 | a positive argument is taken, any other gives a day and 1024 entries; without one a positive setting of the environment is taken, else these defaults |
| BoundedDict.BoundedDict.constructor | plugins/shared/bounded_dict.py:60-74 | limits as configured, empty content |
| BoundedDict.BoundedDict.SweepExpired | plugins/shared/bounded_dict.py:78-82 | listing the expired keys and deleting them one by one leaves the unexpired entries in order |
| BoundedDict.BoundedDict.SetItem | plugins/shared/bounded_dict.py:84-93 | sweep, eviction loop and insertion equal one write of the model; clock and fields of the write are stored, and no other entry older than the lifetime is left |
| BoundedDict.BoundedDict.DelItem | plugins/shared/bounded_dict.py:109-110 | removes the key, or fails and changes nothing |
| BoundedDict.BoundedDict.GetItem | plugins/shared/bounded_dict.py:97-101 | finds the entry of a key if and only if there is one |
| ProjectRegistry.InsideIff | plugins/shared/project_registry.py:531-545 | string prefix plus separator is proper segment prefix, except that nothing counts as inside the root |
| ProjectRegistry.MatchScopeIff | plugins/shared/project_registry.py:524-536 | some scope matches if and only if a whitelist entry or the workspace is the path or a non-root ancestor of it |
| ProjectRegistry.CheckIsExact | plugins/shared/project_registry.py:539-549 | a path that passes both checks overlaps exactly those rows where a root directory is involved |
| ProjectRegistry.ExplicitAnswers | plugins/shared/project_registry.py:568-591 | every answer to an explicit registration and when it is given: the row of the folder if there is one; else refused if neither workspace nor a whitelist entry is the path or a non-root ancestor of it; else refused with a row that nests with it; else the folder's failure or the new row as requested |
| ProjectRegistry.OutsideScopeIff | plugins/shared/project_registry.py:574-580 | a folder that no row has is refused for its scope if and only if the scope does not hold it, and the ledger is left alone |
| ProjectRegistry.ExplicitRunsStayInScope | plugins/shared/project_registry.py:552-591 | over every sequence of explicit registrations and removals with one whitelist and workspace, no folder outside the scope gets into the ledger |
| ProjectRegistry.RunContinues | plugins/shared/project_registry.py:552-591 | a run of calls is its calls one after the other, each on the ledger the former ones leave |
| ProjectRegistry.SavedInPlace | plugins/shared/project_registry.py:165-168 | a row saved under a known id takes that row's place, another one goes to the end |
| ProjectRegistry.ExplicitKeepsIff | plugins/shared/project_registry.py:569-591 | a new explicit registration keeps the folders pairwise apart if and only if neither it nor another row is the root |
| ProjectRegistry.DefaultKeepsIff | plugins/shared/project_registry.py:582-591 | a registration by title keeps them apart if and only if the two checks that an explicit path has to pass would have found none of the other rows, and neither its folder nor another row is the root |
| ProjectRegistry.DefaultRouteNests | plugins/shared/project_registry.py:569-591 | two calls after which one project lies inside another |
| ProjectRegistry.ExplicitRunsStayDisjoint | plugins/shared/project_registry.py:552-591 | over every sequence of explicit registrations below the root, refused or not, and removals, the registered folders stay pairwise distinct and non-nested |
| ProjectRegistry.RegisteringAgain | plugins/shared/project_registry.py:569-573 | registering a registered folder again, however spelled and whatever the whitelist says by then, returns the same row and changes nothing |
| ProjectRegistry.ListIsSorted | plugins/shared/project_registry.py:174-176 | the list holds exactly the ledger's rows with their multiplicity, times descending, and the rows of each time in ledger order |
| ProjectRegistry.Registry.List | plugins/shared/project_registry.py:174-176 | returns this list: sorted newest first, a permutation of the ledger, rows of equal time in ledger order |
| ProjectRegistry.Registry.AssertNoOverlap | plugins/shared/project_registry.py:539-549 | the loop finds the first overlapping row in list order |
| ProjectRegistry.Registry.EnsureRegistered | plugins/shared/project_registry.py:552-591 | reuse, scope refusal, overlap refusal, folder failure or new row, in this order, and the ledger after each |
| LogArchive.ExactlyOneCopyIff | scripts/compress_kernel_logs.py:135-147 | after a day is processed there is exactly one copy if and only if its rollback did not fail, or, for a plaintext removed by something else before the unlink, if and only if it failed; which copy it is |
| LogArchive.LostIff | scripts/compress_kernel_logs.py:135-147 | a day's text is lost if and only if something else removes the plaintext before the unlink and the rollback works |
| LogArchive.ArchivedIff | scripts/compress_kernel_logs.py:73-147 | a day is archived if and only if every operation works; then its text is in the archive and the plaintext is gone; what a failed day keeps, and when the failure of its rollback is reported |
| LogArchive.LeftoverIs | scripts/compress_kernel_logs.py:94-98 | what a failed day leaves of an unfinished copy |
| LogArchive.SmoothRun | scripts/compress_kernel_logs.py:101-171 | where every operation works: a log older than the limit goes to the archive, unless it is the newest one and of today or yesterday; an archive past the window goes away; the rest stays |
| LogArchive.DryRunChangesNothing | scripts/compress_kernel_logs.py:132-134 | a run without apply leaves every day's files alone |
| LogArchive.FinalKeptIff | scripts/compress_kernel_logs.py:101-171 | after a whole run a day within the retention window is without its text if and only if the run archived it, found the plaintext removed and rolled back |
| LogArchive.LogDir.GzipFile | scripts/compress_kernel_logs.py:73-98 | the archive appears only with a copy of the size of the original, the plaintext is untouched, and leftovers are removed where that works |
| LogArchive.LogDir.ProcessDay | scripts/compress_kernel_logs.py:135-147 | the verdict and the day's files; every disk state on the way leaves other days alone and holds the day's text as plaintext or archive, unless the plaintext is taken away and the rollback works |
| LogArchive.LogDir.CompressPass | scripts/compress_kernel_logs.py:106-147 | exactly the days older than the limit that no writer can hold are processed, each reported once, and no state on the way lacks the text of a day but those the run loses |
| LogArchive.LogDir.ExpirePass | scripts/compress_kernel_logs.py:149-171 | exactly the archives past the window are deleted, reported as stale, or reported as undeletable |
| LogArchive.LogDir.ProcessDir | scripts/compress_kernel_logs.py:101-171 | final files of every day, crash safety of every disk state on the way for all days within the retention window but exactly those the run loses, the failed days are exactly the eligible ones not archived, the undeleted archives those past the window that could not be removed, and status 0 if and only if there are none of either |
| TreeSync.Tree.CopyNewer | scripts/sync_user_root.py:118-128 | a file is written exactly when it is missing, of other size or older, and a dry run writes nothing |
| TreeSync.Tree.SyncTree | scripts/sync_user_root.py:131-144 | for trees without file and directory clashes, in any visiting order: the pointwise merge, the exact list of copied paths, new directories only where the source has them; a dry run gives the same list and changes nothing |
| TreeSync.LookupMeaning | scripts/sync_user_root.py:137-145 | what takes part in a merge: the nodes of the source tree at paths without an excluded name, links left out |
| TreeSync.Tree.SyncPlugins | scripts/sync_user_root.py:147-166 | every path is what the first plugin found under its first segment makes of it; links and other names are untouched; the reported copies are exactly the files that replace or add something, in a dry run too; the reported links and duplicates are the link names first found and the names found again, in order; the same directory reports nothing |
| TreeSync.PluginsLeave | scripts/sync_user_root.py:147-166 | a path under a link name or a name no plugin has is as before, any other is the merge with the first plugin of the name |
| TreeSync.DuplicatesCount | scripts/sync_user_root.py:157-159 | of the plugins of a name all but the first are reported as duplicates |
| TreeSync.LinksCount | scripts/sync_user_root.py:160-164 | a link name is reported once, however often it is found |
| TreeSync.SyncNeverRemoves | scripts/sync_user_root.py:131-144 | no destination path is removed and none that the source lacks is touched |
| TreeSync.SyncLeavesFresh | scripts/sync_user_root.py:118-144 | every source file ends equal to its copy, or the kept copy has the same size and is at least as new |
| TreeSync.SecondSyncCopiesNothing | scripts/sync_user_root.py:131-144 | a second sync copies nothing |
| TreeSync.SyncKeepsNoClash | scripts/sync_user_root.py:131-144 | and may run, as the first leaves no clash |
| TreeSync.NewerCopyOverwrittenIff | scripts/sync_user_root.py:118-128 | a newer destination file is overwritten if and only if the sizes differ |
| TreeSync.Tree.SeedTree | electron/kernel-manager.ts:241-265 | for trees without clashes: files and directories are the merge of both trees |
| TreeSync.SeedPrefersDestination | electron/kernel-manager.ts:241-265 | the destination wins everywhere, the source fills exactly what is missing |
| TreeSync.SeedIdempotent | electron/kernel-manager.ts:236-265 | seeding again changes no file and no directory |

## Left out

- ReadsExactlyIff: says nothing where a hunk is out of place and stray numbers or a header of another file of the diff come with it; ReadsExactly gives the sufficient direction for all diffs, and GitDiffReadsExactlyIff both directions for every diff git prints of single-line text. With line breaks inside source lines misplaced, missing and stray numbers can cancel and leave the result right (InPlaceNotNecessary).
- EveryOrderIsSafe: assumes one call of the ensure function, as the application makes.
- Exclusion: identifies a contender with its holder string and lets it run one command at a time; locks written by other programs are not modelled.
- ExclusionIff: takes the liveness probe as true. Where psutil cannot be imported the probe answers no for every process (scripts/ops_lock.py:85-91); then all five conditions can hold and there can still be two owners.
- RunAgrees: does not model callers that change an entry after reading it, nor a lifetime that is not a number; times are whole ticks of the clock.
- SyncTree: excludes trees in which a file meets a directory of the same path, where the source raises an error or copies into the directory.
- SeedTree: excludes trees with links, which the source copies through.
- Launching gates, their output and timing, the printed reports, and the literal gate table: an outcome is an arbitrary but fixed value per gate, and the known gates are a parameter. Sorted lists in error messages are sets.
- The renderer's answer is arbitrary at every read, also where the source would return null for a destroyed window; window calls that throw are not modelled.
- Process environment, token secret, credential and database paths of the kernel.
- The audit log of the lease lock and the rounding of its times.
- UTF-8 decoding is a parameter, and integers have ASCII digits; Python's int accepts other decimal digits too. The base-64 decoding rules are those of Python's binascii module, which is not part of this model's sources.
- JSON text, PNG containers and the image library are parameters; each card theorem asks of them only that they read back the values it is about. The cover image and the card validators are left out.
- Newline translation when files are read and written.
- Git's quoting of unusual path names belongs to path normalisation, which is a parameter; range resolution, the skip marker, the coverage file parsers and the rounding of the percentage are left out.
- Path resolution is a stable parameter in POSIX form; the choice of a default folder name, folder creation, the YAML files and two processes writing the ledger at once are left out.
- A log file name stands for its day number; apart from the removal of a plaintext just before its unlink, nothing else changes the files during a run; directory listing errors and disk flushing are not modelled.
- Discovery of plugin directories: the sync takes the list that discovery finds.
- Permission errors and concurrent changes during a tree merge.
- Zone whitelist editing, workflow state transitions and removal of project folders: one comparison or list update each.
- The React frontend, the protocol servers, the ratchet checkers and all configuration.
